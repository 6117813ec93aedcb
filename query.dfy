/** The query operations the routes ask of a collection (`find` with a
    filter, `sort({createdAt: -1})`, `skip`, `limit`, `countDocuments`),
    over a collection held as a sequence whose positions are the
    documents' identifiers. */
module Query {
  import opened Common

  predicate Increasing(ids: seq<Id>) {
    forall i, j :: 0 <= i < j < |ids| ==> ids[i] < ids[j]
  }

  /** `find(filter)` in natural (insertion) order: the identifiers of exactly
      the documents that satisfy `p`, each once, in ascending order. */
  function Where<T>(xs: seq<T>, p: T -> bool): (ids: seq<Id>)
    ensures forall k :: 0 <= k < |ids| ==> ids[k] < |xs| && p(xs[ids[k]])
    ensures forall i :: 0 <= i < |xs| && p(xs[i]) ==> i in ids
    ensures Increasing(ids)
  {
    if xs == [] then []
    else
      var front := Where(xs[..|xs| - 1], p);
      assert forall k :: 0 <= k < |front| ==> xs[..|xs| - 1][front[k]] == xs[front[k]];
      if p(xs[|xs| - 1]) then front + [|xs| - 1] else front
  }

  predicate SortedDesc(ids: seq<Id>, key: Id -> int) {
    forall i, j :: 0 <= i < j < |ids| ==> key(ids[i]) >= key(ids[j])
  }

  /** Puts `x` into a list before the first entry with a smaller key. */
  function InsertDesc(x: Id, sorted: seq<Id>, key: Id -> int): (r: seq<Id>)
    ensures |r| == |sorted| + 1
    ensures multiset(r) == multiset(sorted) + multiset{x}
  {
    if sorted == [] || key(x) >= key(sorted[0]) then [x] + sorted
    else
      assert sorted == [sorted[0]] + sorted[1..];
      [sorted[0]] + InsertDesc(x, sorted[1..], key)
  }

  /** Inserting into a list sorted by descending key keeps it sorted; the
      new first entry is `x` or the old first entry. */
  lemma {:induction false} InsertDescSorted(x: Id, sorted: seq<Id>, key: Id -> int)
    requires SortedDesc(sorted, key)
    ensures var r := InsertDesc(x, sorted, key);
      SortedDesc(r, key) && (r[0] == x || (sorted != [] && r[0] == sorted[0]))
  {
    if sorted == [] || key(x) >= key(sorted[0]) {
      ConsSorted(x, sorted, key);
    } else {
      var tail := sorted[1..];
      assert SortedDesc(tail, key) by {
        assert forall i :: 0 <= i < |tail| ==> tail[i] == sorted[i + 1];
      }
      InsertDescSorted(x, tail, key);
      ConsSorted(sorted[0], InsertDesc(x, tail, key), key);
    }
  }

  /** An entry whose key is at least the first key of a sorted list can go in
      front of it. */
  lemma ConsSorted(h: Id, rest: seq<Id>, key: Id -> int)
    requires SortedDesc(rest, key) && (rest == [] || key(h) >= key(rest[0]))
    ensures SortedDesc([h] + rest, key)
  {
    var r := [h] + rest;
    forall i, j | 0 <= i < j < |r|
      ensures key(r[i]) >= key(r[j])
    {
      if i == 0 {
        assert key(rest[0]) >= key(rest[j - 1]);
      }
    }
  }

  /** `sort({createdAt: -1})`: the same identifiers, by descending key. */
  function SortDesc(ids: seq<Id>, key: Id -> int): (r: seq<Id>)
    ensures multiset(r) == multiset(ids)
    ensures SortedDesc(r, key)
  {
    if ids == [] then []
    else
      var rest := SortDesc(ids[1..], key);
      assert ids == [ids[0]] + ids[1..];
      InsertDescSorted(ids[0], rest, key);
      InsertDesc(ids[0], rest, key)
  }

  /** No identifier occurs twice. */
  predicate Distinct(ids: seq<Id>) {
    forall a, b :: 0 <= a < b < |ids| ==> ids[a] != ids[b]
  }

  lemma {:induction false} DistinctCount(ids: seq<Id>)
    requires Distinct(ids)
    ensures forall x :: multiset(ids)[x] <= 1
  {
    if ids != [] {
      var front := ids[..|ids| - 1];
      assert ids == front + [ids[|ids| - 1]];
      DistinctCount(front);
      assert ids[|ids| - 1] !in front;
    }
  }

  lemma TwiceCount(ids: seq<Id>, a: nat, b: nat)
    requires a < b < |ids| && ids[a] == ids[b]
    ensures multiset(ids)[ids[a]] >= 2
  {
    assert ids == ids[..b] + [ids[b]] + ids[b + 1..];
    assert ids[..b][a] == ids[a];
  }

  /** A rearrangement of a list without repetitions has none. */
  lemma DistinctByMultiset(xs: seq<Id>, ys: seq<Id>)
    requires multiset(xs) == multiset(ys) && Distinct(ys)
    ensures Distinct(xs)
  {
    DistinctCount(ys);
    forall a, b | 0 <= a < b < |xs|
      ensures xs[a] != xs[b]
    {
      if xs[a] == xs[b] {
        TwiceCount(xs, a, b);
      }
    }
  }

  /** `find(filter).sort({createdAt: -1})`: the identifiers of exactly the
      documents that satisfy `p`, each once, by descending `key`. */
  function NewestFirstWhere<T>(xs: seq<T>, p: T -> bool, key: T -> int): (ids: seq<Id>)
    ensures multiset(ids) == multiset(Where(xs, p))
    ensures forall k :: 0 <= k < |ids| ==> ids[k] < |xs| && p(xs[ids[k]])
    ensures forall i :: 0 <= i < |xs| && p(xs[i]) ==> i in ids
    ensures Distinct(ids)
    ensures forall a, b :: 0 <= a < b < |ids| ==> key(xs[ids[a]]) >= key(xs[ids[b]])
  {
    var matched := Where(xs, p);
    var order := (i: Id) => if i < |xs| then key(xs[i]) else 0;
    var ids := SortDesc(matched, order);
    forall k | 0 <= k < |ids|
      ensures ids[k] < |xs| && p(xs[ids[k]])
    {
      assert ids[k] in multiset(matched);
    }
    forall i | 0 <= i < |xs| && p(xs[i])
      ensures i in ids
    {
      assert i in multiset(matched);
    }
    DistinctByMultiset(ids, matched);
    assert forall a, b :: 0 <= a < b < |ids| ==> order(ids[a]) >= order(ids[b]);
    ids
  }

  /** `skip(skip).limit(limit)`: at most `limit` entries, starting at
      position `skip`. */
  function Page<T>(xs: seq<T>, skip: nat, limit: nat): (r: seq<T>)
    ensures |r| == if skip >= |xs| then 0 else if |xs| - skip < limit then |xs| - skip else limit
    ensures forall k :: 0 <= k < |r| ==> r[k] == xs[skip + k]
  {
    if skip >= |xs| then [] else xs[skip..if |xs| - skip < limit then |xs| else skip + limit]
  }

  /** `Math.ceil(total / limit)`: the number of pages of `limit` entries
      needed to show `total` entries. */
  function PageCount(total: nat, limit: nat): (pages: nat)
    requires limit >= 1
    ensures pages * limit >= total
    ensures pages == 0 || (pages - 1) * limit < total
  {
    if total == 0 then 0 else (total - 1) / limit + 1
  }

  /** `skip = (page - 1) * limit`. */
  function Skip(page: Positive, limit: Positive): nat {
    (page - 1) * limit
  }

  /** Position `k` of `n` entries falls on page `k / limit + 1`, which is
      one of the `PageCount(n, limit)` pages. */
  lemma PageOfPosition(k: nat, n: nat, limit: Positive)
    requires k < n
    ensures var page := k / limit + 1;
      Skip(page, limit) <= k < Skip(page, limit) + limit && page <= PageCount(n, limit)
  {
    var page := k / limit + 1;
    assert Skip(page, limit) == k / limit * limit;
    assert (n - 1) / limit >= k / limit by {
      DivMonotone(k, n - 1, limit);
    }
  }

  /** Every entry of a list is on one of its pages. */
  lemma PagedPosition<T>(xs: seq<T>, k: nat, limit: Positive) returns (page: Positive)
    requires k < |xs|
    ensures page <= PageCount(|xs|, limit) && xs[k] in Page(xs, Skip(page, limit), limit)
  {
    page := k / limit + 1;
    PageOfPosition(k, |xs|, limit);
    var skip := Skip(page, limit);
    assert Page(xs, skip, limit)[k - skip] == xs[k];
  }

  lemma DivMonotone(a: nat, b: nat, d: Positive)
    requires a <= b
    ensures a / d <= b / d
  {
    var qa := a / d;
    var qb := b / d;
    assert qa * d <= a;
    assert b < (qb + 1) * d;
    MulCancel(qa, qb + 1, d);
  }

  lemma MulCancel(x: nat, y: nat, d: Positive)
    requires x * d < y * d
    ensures x < y
  {
    if x >= y {
      MulMonotone(y, x, d);
    }
  }

  lemma MulMonotone(x: nat, y: nat, d: nat)
    requires x <= y
    ensures x * d <= y * d
  {
  }
}
