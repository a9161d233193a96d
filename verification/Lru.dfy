/** The deduplication cache of a gossip node: a least-recently-used cache of message ids, related to
    the history of accesses. Both a hit and an insertion count as an access. */
module Lru {
  import opened Core

  function Without(q: seq<MessageId>, x: MessageId): (r: seq<MessageId>)
    ensures forall y :: y in r <==> y in q && y != x
    ensures |r| <= |q|
  {
    if q == [] then [] else if q[0] == x then Without(q[1..], x) else [q[0]] + Without(q[1..], x)
  }

  function Take(q: seq<MessageId>, n: nat): (r: seq<MessageId>)
    ensures |r| <= n && |r| <= |q|
  {
    if |q| <= n then q else q[..n]
  }

  /** The cache, most recently used first, after an access to id. */
  function Touch(q: seq<MessageId>, id: MessageId, capacity: nat): seq<MessageId> {
    Take([id] + Without(q, id), capacity)
  }

  ghost predicate Distinct(q: seq<MessageId>) {
    forall i, k :: 0 <= i < k < |q| ==> q[i] != q[k]
  }

  /** The distinct ids of a history (oldest access first), most recently accessed first. */
  function Recent(h: seq<MessageId>): seq<MessageId> {
    if h == [] then [] else [h[|h| - 1]] + Without(Recent(h[..|h| - 1]), h[|h| - 1])
  }

  /** The other ids accessed after the last access to id. */
  function Since(h: seq<MessageId>, id: MessageId): set<MessageId> {
    if h == [] || h[|h| - 1] == id then {} else Since(h[..|h| - 1], id) + {h[|h| - 1]}
  }

  lemma {:induction false} WithoutAbsent(q: seq<MessageId>, x: MessageId)
    requires x !in q
    ensures Without(q, x) == q
  {
    if q == [] {
    } else {
      WithoutAbsent(q[1..], x);
    }
  }

  lemma {:induction false} WithoutAt(q: seq<MessageId>, j: nat)
    requires Distinct(q) && j < |q|
    ensures Without(q, q[j]) == q[..j] + q[j + 1..]
  {
    if j == 0 {
      WithoutAbsent(q[1..], q[0]);
    } else {
      var tail := q[1..];
      assert q[0] != q[j];
      WithoutAt(tail, j - 1);
      assert [q[0]] + tail[..j - 1] == q[..j];
      assert tail[j..] == q[j + 1..];
      assert Without(q, q[j]) == [q[0]] + (tail[..j - 1] + tail[j..]);
    }
  }

  lemma WithoutDistinct(q: seq<MessageId>, x: MessageId)
    requires Distinct(q)
    ensures Distinct(Without(q, x))
    ensures |Without(q, x)| == if x in q then |q| - 1 else |q|
  {
    if j :| 0 <= j < |q| && q[j] == x {
      WithoutAt(q, j);
    } else {
      WithoutAbsent(q, x);
    }
  }

  /** Removing the id at j from q or from its first n ids agrees on the first n - 1 ids. */
  lemma WithoutTakeAt(q: seq<MessageId>, j: nat, n: nat)
    requires Distinct(q) && 0 < n < |q| && j < |q|
    ensures |Without(q[..n], q[j])| >= n - 1 && |Without(q, q[j])| >= n - 1
    ensures Without(q[..n], q[j])[..n - 1] == Without(q, q[j])[..n - 1]
  {
    WithoutAt(q, j);
    if j < n {
      WithoutAt(q[..n], j);
      assert Without(q[..n], q[j]) == q[..j] + q[j + 1..n];
      assert (q[..j] + q[j + 1..])[..n - 1] == q[..j] + q[j + 1..n];
    } else {
      WithoutAbsent(q[..n], q[j]);
      assert (q[..j] + q[j + 1..])[..n - 1] == q[..n - 1];
    }
  }

  lemma TakeIsSlice(q: seq<MessageId>, n: nat)
    requires n <= |q|
    ensures Take(q, n) == q[..n]
  {
  }

  lemma WithoutTake(q: seq<MessageId>, x: MessageId, n: nat)
    requires Distinct(q) && n > 0
    ensures Take(Without(Take(q, n), x), n - 1) == Take(Without(q, x), n - 1)
  {
    if |q| > n {
      if j :| 0 <= j < |q| && q[j] == x {
        WithoutTakeAt(q, j, n);
      } else {
        WithoutAbsent(q, x);
        WithoutAbsent(q[..n], x);
        assert q[..n][..n - 1] == q[..n - 1];
      }
      TakeIsSlice(q, n);
      TakeIsSlice(Without(q[..n], x), n - 1);
      TakeIsSlice(Without(q, x), n - 1);
    }
  }

  lemma DistinctFront(x: MessageId, q: seq<MessageId>)
    requires Distinct(q) && x !in q
    ensures Distinct([x] + q)
  {
  }

  lemma {:induction false} RecentDistinct(h: seq<MessageId>)
    ensures Distinct(Recent(h))
    ensures forall x :: x in Recent(h) <==> x in h
  {
    if h == [] {
    } else {
      var front, last := h[..|h| - 1], h[|h| - 1];
      RecentDistinct(front);
      WithoutDistinct(Recent(front), last);
      DistinctFront(last, Without(Recent(front), last));
    }
  }

  /** Touching the cache follows the history: it always holds exactly the most recently accessed
      distinct ids, up to its capacity. */
  lemma TouchFollowsHistory(h: seq<MessageId>, id: MessageId, capacity: nat)
    requires capacity > 0
    ensures Touch(Take(Recent(h), capacity), id, capacity) == Take(Recent(h + [id]), capacity)
  {
    assert (h + [id])[..|h|] == h;
    RecentDistinct(h);
    WithoutTake(Recent(h), id, capacity);
    var a, b := Without(Take(Recent(h), capacity), id), Without(Recent(h), id);
    assert Take([id] + a, capacity) == [id] + Take(a, capacity - 1);
    assert Take([id] + b, capacity) == [id] + Take(b, capacity - 1);
  }

  /** What precedes the first occurrence of x. */
  function Before(q: seq<MessageId>, x: MessageId): (r: seq<MessageId>)
    ensures x !in r
  {
    if q == [] || q[0] == x then [] else [q[0]] + Before(q[1..], x)
  }

  lemma {:induction false} BeforeWithout(q: seq<MessageId>, y: MessageId, x: MessageId)
    requires x != y
    ensures Before(Without(q, y), x) == Without(Before(q, x), y)
  {
    if q == [] {
    } else {
      BeforeWithout(q[1..], y, x);
    }
  }

  lemma {:induction false} TakenIff(q: seq<MessageId>, x: MessageId, n: nat)
    ensures x in Take(q, n) <==> x in q && |Before(q, x)| < n
  {
    if q == [] || n == 0 || q[0] == x {
    } else {
      TakenIff(q[1..], x, n - 1);
      assert Take(q, n) == [q[0]] + Take(q[1..], n - 1);
    }
  }

  /** q lists the ids of a set, each once. */
  ghost predicate ListsSet(q: seq<MessageId>, ids: set<MessageId>) {
    Distinct(q) && |q| == |ids| && forall y :: y in q <==> y in ids
  }

  lemma MovedToFront(q: seq<MessageId>, ids: set<MessageId>, last: MessageId)
    requires ListsSet(q, ids)
    ensures ListsSet([last] + Without(q, last), ids + {last})
  {
    WithoutDistinct(q, last);
    DistinctFront(last, Without(q, last));
    assert last in q ==> ids + {last} == ids;
  }

  lemma AheadAfter(h: seq<MessageId>, last: MessageId, x: MessageId)
    requires last != x
    ensures Before(Recent(h + [last]), x) == [last] + Without(Before(Recent(h), x), last)
  {
    assert (h + [last])[..|h|] == h;
    var moved := [last] + Without(Recent(h), last);
    assert moved[1..] == Without(Recent(h), last);
    BeforeWithout(Recent(h), last, x);
  }

  /** The ids ahead of x in recency order are those accessed since. */
  lemma {:induction false} AheadIsSince(h: seq<MessageId>, x: MessageId)
    requires x in h
    ensures ListsSet(Before(Recent(h), x), Since(h, x))
  {
    var front, last := h[..|h| - 1], h[|h| - 1];
    assert h == front + [last];
    if last == x {
    } else {
      AheadIsSince(front, x);
      AheadAfter(front, last, x);
      MovedToFront(Before(Recent(front), x), Since(front, x), last);
    }
  }

  /** Hit or miss, in terms of the history alone: an id is in the cache exactly when it was accessed
      and fewer than `capacity` distinct other ids have been accessed since. */
  lemma CachedIff(h: seq<MessageId>, id: MessageId, capacity: nat)
    ensures id in Take(Recent(h), capacity) <==> id in h && |Since(h, id)| < capacity
  {
    RecentDistinct(h);
    TakenIff(Recent(h), id, capacity);
    if id in h {
      AheadIsSince(h, id);
    }
  }

  /** The distinct ids other than id in a stretch of history. */
  function Others(h: seq<MessageId>, id: MessageId): set<MessageId> {
    set y | y in h && y != id
  }

  lemma {:induction false} SinceIsWithin(h: seq<MessageId>, id: MessageId, i: nat)
    requires i < |h| && h[i] == id
    ensures Since(h, id) <= Others(h[i + 1..], id)
  {
    var last := h[|h| - 1];
    if last == id {
    } else {
      SinceIsWithin(h[..|h| - 1], id, i);
      assert h[i + 1..] == h[..|h| - 1][i + 1..] + [last];
    }
  }

  /** An access to an id at position k misses, so that the id is delivered again, only if at least
      `capacity` distinct other ids were accessed after each earlier access to it. */
  lemma MissNeedsGap(h: seq<MessageId>, i: nat, k: nat, capacity: nat)
    requires i < k < |h| && h[i] == h[k]
    requires h[k] !in Take(Recent(h[..k]), capacity)
    ensures |Others(h[i + 1..k], h[k])| >= capacity
  {
    CachedIff(h[..k], h[k], capacity);
    assert h[..k][i] == h[k];
    SinceIsWithin(h[..k], h[k], i);
    assert h[..k][i + 1..] == h[i + 1..k];
    SubsetSize(Since(h[..k], h[k]), Others(h[i + 1..k], h[k]));
  }

  class SeenCache {
    const capacity: nat
    var entries: seq<MessageId>
    ghost var history: seq<MessageId>

    ghost predicate Valid()
      reads this
    {
      capacity > 0 && entries == Take(Recent(history), capacity)
    }

    constructor (capacity: nat)
      requires capacity > 0
      ensures Valid() && this.capacity == capacity && history == []
    {
      this.capacity := capacity;
      entries, history := [], [];
    }

    /** A hit moves the id to the front. */
    method Get(id: MessageId) returns (hit: bool)
      requires Valid()
      modifies this
      ensures Valid()
      ensures hit <==> id in old(history) && |Since(old(history), id)| < capacity
      ensures history == if hit then old(history) + [id] else old(history)
      ensures entries == if hit then Touch(old(entries), id, capacity) else old(entries)
    {
      CachedIff(history, id, capacity);
      hit := id in entries;
      if hit {
        TouchFollowsHistory(history, id, capacity);
        entries := Touch(entries, id, capacity);
        history := history + [id];
      }
    }

    /** Puts the id at the front, evicting the least recently used one when full. */
    method Put(id: MessageId)
      requires Valid()
      modifies this
      ensures Valid() && history == old(history) + [id] && entries == Touch(old(entries), id, capacity)
    {
      TouchFollowsHistory(history, id, capacity);
      entries := Touch(entries, id, capacity);
      history := history + [id];
    }
  }
}
