/**
 * One side of a local order book (the `bids` or `asks` dictionary, price to
 * quantity) and what both OrderBookManager classes do with it: load snapshot
 * levels, apply diff levels, list levels sorted by price, and sum quantities.
 */
module Levels {
  import opened Wrappers
  import opened Models

  /** A side of the book: price -> quantity. */
  type Side = map<real, real>

  function Lookup(side: Side, p: real): Option<real> {
    if p in side then Some(side[p]) else None
  }

  ghost predicate NonNegative(side: Side) {
    forall p :: p in side ==> side[p] >= 0.0
  }

  // ---------------------------------------------------------------- writing

  /**
   * The quantity of the LAST entry of `es` at price `p`, or None when no entry
   * of `es` has that price.
   */
  function LastQuantity(es: seq<Entry>, p: real): (r: Option<real>)
    ensures r.None? <==> forall i :: 0 <= i < |es| ==> es[i].price != p
    decreases |es|
  {
    if es == [] then None
    else if es[|es| - 1].price == p then Some(es[|es| - 1].quantity)
    else
      var init := es[..|es| - 1];
      assert forall j :: 0 <= j < |init| ==> init[j] == es[j];
      LastQuantity(init, p)
  }

  /** A found quantity is that of an entry at `p` after which no entry names `p`. */
  lemma {:induction false} LastQuantityIsLast(es: seq<Entry>, p: real)
    requires LastQuantity(es, p).Some?
    ensures exists i :: 0 <= i < |es| && es[i] == Entry(p, LastQuantity(es, p).value)
                        && forall j :: i < j < |es| ==> es[j].price != p
    decreases |es|
  {
    var n := |es| - 1;
    if es[n].price == p {
      assert es[n] == Entry(p, LastQuantity(es, p).value);
    } else {
      var init := es[..n];
      LastQuantityIsLast(init, p);
      var i :| 0 <= i < |init| && init[i] == Entry(p, LastQuantity(init, p).value)
               && forall j :: i < j < |init| ==> init[j].price != p;
      assert es[i] == init[i];
      assert forall j :: i < j < |es| ==> es[j].price != p by {
        forall j | i < j < |es| ensures es[j].price != p {
          if j < n {
            assert es[j] == init[j];
          }
        }
      }
    }
  }

  /** `side` after `side[e.price] = e.quantity` for every entry of `es`, in order. */
  function Stored(side: Side, es: seq<Entry>): Side
    decreases |es|
  {
    if es == [] then side
    else
      var e := es[|es| - 1];
      Stored(side, es[..|es| - 1])[e.price := e.quantity]
  }

  /** One diff level: quantity 0 removes the price, any other quantity upserts it. */
  function Apply(side: Side, u: Entry): Side {
    if u.quantity == 0.0 then side - {u.price} else side[u.price := u.quantity]
  }

  /** `side` after applying every level of a diff batch, in order. */
  function Updated(side: Side, us: seq<Entry>): Side
    decreases |us|
  {
    if us == [] then side else Apply(Updated(side, us[..|us| - 1]), us[|us| - 1])
  }

  /**
   * Loading snapshot levels: a price the levels name ends with the quantity of
   * its last entry (zero included), every other price keeps what it had.
   */
  lemma {:induction false} StoredAt(side: Side, es: seq<Entry>, p: real)
    ensures Lookup(Stored(side, es), p) == if LastQuantity(es, p).Some? then LastQuantity(es, p) else Lookup(side, p)
    decreases |es|
  {
    if es != [] {
      StoredAt(side, es[..|es| - 1], p);
    }
  }

  /**
   * A book loaded from nothing: a price is present exactly when some entry
   * names it, with the quantity of its last such entry.
   */
  lemma StoredFromEmpty(es: seq<Entry>)
    ensures forall p :: Lookup(Stored(map[], es), p) == LastQuantity(es, p)
  {
    forall p ensures Lookup(Stored(map[], es), p) == LastQuantity(es, p) {
      StoredAt(map[], es, p);
    }
  }

  /** Two sides that agree at every price are the same side. */
  lemma SameLookups(a: Side, b: Side)
    requires forall p :: Lookup(a, p) == Lookup(b, p)
    ensures a == b
  {
    forall p | p in a ensures p in b && a[p] == b[p] {
      assert Lookup(a, p) == Lookup(b, p);
    }
    forall p | p in b ensures p in a {
      assert Lookup(a, p) == Lookup(b, p);
    }
  }

  /**
   * Loading the same levels a second time changes nothing, whatever the
   * side held before the first load.
   */
  lemma StoredIdempotent(side: Side, es: seq<Entry>)
    ensures Stored(Stored(side, es), es) == Stored(side, es)
  {
    forall p ensures Lookup(Stored(Stored(side, es), es), p) == Lookup(Stored(side, es), p) {
      StoredAt(Stored(side, es), es, p);
      StoredAt(side, es, p);
    }
    SameLookups(Stored(Stored(side, es), es), Stored(side, es));
  }

  /**
   * Applying a diff batch: a price the batch names is decided by its last entry
   * (0 deletes, anything else sets); a price it does not name is untouched.
   */
  lemma {:induction false} UpdatedAt(side: Side, us: seq<Entry>, p: real)
    ensures Lookup(Updated(side, us), p) ==
              match LastQuantity(us, p)
              case None => Lookup(side, p)
              case Some(q) => if q == 0.0 then None else Some(q)
    decreases |us|
  {
    if us != [] {
      UpdatedAt(side, us[..|us| - 1], p);
    }
  }

  /** Applying the same diff batch twice is the same as applying it once. */
  lemma UpdatedIdempotent(side: Side, us: seq<Entry>)
    ensures Updated(Updated(side, us), us) == Updated(side, us)
  {
    forall p ensures Lookup(Updated(Updated(side, us), us), p) == Lookup(Updated(side, us), p) {
      UpdatedAt(Updated(side, us), us, p);
      UpdatedAt(side, us, p);
    }
    SameLookups(Updated(Updated(side, us), us), Updated(side, us));
  }

  // --------------------------------------------------------------- ordering

  ghost predicate IsHighest(p: real, side: Side) {
    p in side && forall q :: q in side ==> q <= p
  }

  ghost predicate IsLowest(p: real, side: Side) {
    p in side && forall q :: q in side ==> p <= q
  }

  /**
   * A set with no members is empty. (Stated as an implication so that callers
   * can obtain a member of a non-empty set without arguing by contradiction.)
   */
  lemma NoMemberMeansEmpty(s: set<real>)
    ensures (forall x :: x !in s) ==> s == {}
  {
    if forall x :: x !in s {
      assert forall x :: x in s <==> x in {};
    }
  }

  lemma {:induction false} HighestExists(s: set<real>)
    requires s != {}
    ensures exists k :: k in s && forall j :: j in s ==> j <= k
    decreases |s|
  {
    NoMemberMeansEmpty(s);
    var x :| x in s;
    var t := s - {x};
    NoMemberMeansEmpty(t);
    if t != {} {
      HighestExists(t);
      var k :| k in t && forall j :: j in t ==> j <= k;
      assert s == t + {x};
      if x > k {
        assert x in s && forall j :: j in s ==> j <= x;
      } else {
        assert k in s && forall j :: j in s ==> j <= k;
      }
    } else {
      assert s == {x};
    }
  }

  lemma {:induction false} LowestExists(s: set<real>)
    requires s != {}
    ensures exists k :: k in s && forall j :: j in s ==> k <= j
    decreases |s|
  {
    NoMemberMeansEmpty(s);
    var x :| x in s;
    var t := s - {x};
    NoMemberMeansEmpty(t);
    if t != {} {
      LowestExists(t);
      var k :| k in t && forall j :: j in t ==> k <= j;
      assert s == t + {x};
      if x < k {
        assert x in s && forall j :: j in s ==> x <= j;
      } else {
        assert k in s && forall j :: j in s ==> k <= j;
      }
    } else {
      assert s == {x};
    }
  }

  /** `keys.maxOrNull()` on a non-empty key set. */
  function MaxKey(s: set<real>): (k: real)
    requires s != {}
    ensures k in s && forall j :: j in s ==> j <= k
  {
    HighestExists(s);
    var k :| k in s && forall j :: j in s ==> j <= k;
    k
  }

  /** `keys.minOrNull()` on a non-empty key set. */
  function MinKey(s: set<real>): (k: real)
    requires s != {}
    ensures k in s && forall j :: j in s ==> k <= j
  {
    LowestExists(s);
    var k :| k in s && forall j :: j in s ==> k <= j;
    k
  }

  lemma RemoveOne(side: Side, k: real)
    requires k in side
    ensures |side - {k}| == |side| - 1
  {
    assert (side - {k}).Keys == side.Keys - {k};
  }

  ghost predicate StrictlyDescending(s: seq<Entry>) {
    forall i, j :: 0 <= i < j < |s| ==> s[i].price > s[j].price
  }

  ghost predicate StrictlyAscending(s: seq<Entry>) {
    forall i, j :: 0 <= i < j < |s| ==> s[i].price < s[j].price
  }

  ghost predicate NonDecreasing(s: seq<Entry>) {
    forall i, j :: 0 <= i < j < |s| ==> s[i].price <= s[j].price
  }

  /** Every element of `s` is a level of `side` as stored there. */
  ghost predicate LevelsOf(s: seq<Entry>, side: Side) {
    forall i :: 0 <= i < |s| ==> s[i].price in side && side[s[i].price] == s[i].quantity
  }

  /** Every price of `side` occurs in `s`. */
  ghost predicate Covers(s: seq<Entry>, side: Side) {
    forall p :: p in side ==> exists i :: 0 <= i < |s| && s[i].price == p
  }

  /** The levels of `side`, highest price first (`sortedByDescending { it.key }`). */
  function Descending(side: Side): (r: seq<Entry>)
    ensures |r| == |side|
    decreases |side|
  {
    if |side| == 0 then []
    else
      var k := MaxKey(side.Keys);
      RemoveOne(side, k);
      [Entry(k, side[k])] + Descending(side - {k})
  }

  /** Every element of the descending listing is a level of `side` as stored. */
  lemma {:induction false} DescendingLevels(side: Side)
    ensures LevelsOf(Descending(side), side)
    decreases |side|
  {
    if |side| != 0 {
      var k := MaxKey(side.Keys);
      RemoveOne(side, k);
      var rest := side - {k};
      DescendingLevels(rest);
      var tail := Descending(rest);
      assert Descending(side) == [Entry(k, side[k])] + tail;
    }
  }

  /** Every price of `side` occurs in its descending listing. */
  lemma {:induction false} DescendingCovers(side: Side)
    ensures Covers(Descending(side), side)
    decreases |side|
  {
    if |side| != 0 {
      var k := MaxKey(side.Keys);
      RemoveOne(side, k);
      var rest := side - {k};
      DescendingCovers(rest);
      var r, tail := Descending(side), Descending(rest);
      assert r == [Entry(k, side[k])] + tail;
      forall p | p in side ensures exists i :: 0 <= i < |r| && r[i].price == p {
        if p != k {
          assert p in rest;
          var j :| 0 <= j < |tail| && tail[j].price == p;
          assert r[j + 1] == tail[j];
        } else {
          assert r[0].price == p;
        }
      }
    }
  }

  /** The descending listing falls strictly in price. */
  lemma {:induction false} DescendingSorted(side: Side)
    ensures StrictlyDescending(Descending(side))
    decreases |side|
  {
    if |side| != 0 {
      var k := MaxKey(side.Keys);
      RemoveOne(side, k);
      var rest := side - {k};
      DescendingSorted(rest);
      DescendingLevels(rest);
      var r, tail := Descending(side), Descending(rest);
      assert r == [Entry(k, side[k])] + tail;
      forall i | 0 < i < |r| ensures r[i].price < r[0].price {
        assert r[i] == tail[i - 1];
        assert r[i].price in rest;
      }
    }
  }

  /** The levels of `side`, lowest price first (`sortedBy { it.key }`). */
  function Ascending(side: Side): (r: seq<Entry>)
    ensures |r| == |side|
    decreases |side|
  {
    if |side| == 0 then []
    else
      var k := MinKey(side.Keys);
      RemoveOne(side, k);
      [Entry(k, side[k])] + Ascending(side - {k})
  }

  /** Every element of the ascending listing is a level of `side` as stored. */
  lemma {:induction false} AscendingLevels(side: Side)
    ensures LevelsOf(Ascending(side), side)
    decreases |side|
  {
    if |side| != 0 {
      var k := MinKey(side.Keys);
      RemoveOne(side, k);
      var rest := side - {k};
      AscendingLevels(rest);
      var tail := Ascending(rest);
      assert Ascending(side) == [Entry(k, side[k])] + tail;
    }
  }

  /** Every price of `side` occurs in its ascending listing. */
  lemma {:induction false} AscendingCovers(side: Side)
    ensures Covers(Ascending(side), side)
    decreases |side|
  {
    if |side| != 0 {
      var k := MinKey(side.Keys);
      RemoveOne(side, k);
      var rest := side - {k};
      AscendingCovers(rest);
      var r, tail := Ascending(side), Ascending(rest);
      assert r == [Entry(k, side[k])] + tail;
      forall p | p in side ensures exists i :: 0 <= i < |r| && r[i].price == p {
        if p != k {
          assert p in rest;
          var j :| 0 <= j < |tail| && tail[j].price == p;
          assert r[j + 1] == tail[j];
        } else {
          assert r[0].price == p;
        }
      }
    }
  }

  /** The ascending listing rises strictly in price. */
  lemma {:induction false} AscendingSorted(side: Side)
    ensures StrictlyAscending(Ascending(side))
    decreases |side|
  {
    if |side| != 0 {
      var k := MinKey(side.Keys);
      RemoveOne(side, k);
      var rest := side - {k};
      AscendingSorted(rest);
      AscendingLevels(rest);
      var r, tail := Ascending(side), Ascending(rest);
      assert r == [Entry(k, side[k])] + tail;
      forall i | 0 < i < |r| ensures r[i].price > r[0].price {
        assert r[i] == tail[i - 1];
        assert r[i].price in rest;
      }
    }
  }

  /** `filter { it.value >= minQuantity }` */
  function AtLeast(side: Side, minQuantity: real): Side {
    map p | p in side && side[p] >= minQuantity :: side[p]
  }

  /** A level of the qualifying part of `side` is a qualifying level of `side`. */
  lemma AtLeastLevels(s: seq<Entry>, side: Side, minQuantity: real)
    requires LevelsOf(s, AtLeast(side, minQuantity))
    ensures forall i :: 0 <= i < |s| ==>
              s[i].price in side && side[s[i].price] == s[i].quantity && s[i].quantity >= minQuantity
    ensures forall p :: p in side && side[p] >= minQuantity <==> p in AtLeast(side, minQuantity)
  {
  }

  /** `take(n)` / `prefix(n)` */
  function Take(s: seq<Entry>, n: nat): (r: seq<Entry>) {
    if n <= |s| then s[..n] else s
  }

  /**
   * The first `limit` entries of a complete, strictly descending listing of
   * `side` are its highest levels: any level missing from them is below all
   * of them, and then they fill the limit.
   */
  lemma {:induction false} TakeHighest(sorted: seq<Entry>, side: Side, limit: nat)
    requires LevelsOf(sorted, side) && Covers(sorted, side) && StrictlyDescending(sorted)
    ensures var r := Take(sorted, limit);
      |r| <= limit && StrictlyDescending(r) && LevelsOf(r, side) &&
      forall p :: p in side ==>
        (exists i :: 0 <= i < |r| && r[i].price == p) ||
        (|r| == limit && forall i :: 0 <= i < |r| ==> r[i].price > p)
  {
    var r := Take(sorted, limit);
    assert forall i :: 0 <= i < |r| ==> r[i] == sorted[i];
    forall p | p in side
      ensures (exists i :: 0 <= i < |r| && r[i].price == p) ||
              (|r| == limit && forall i :: 0 <= i < |r| ==> r[i].price > p)
    {
      var j :| 0 <= j < |sorted| && sorted[j].price == p;
      if j < |r| {
        assert r[j].price == p;
      }
    }
  }

  /** The mirror image of `TakeHighest` for a strictly ascending listing. */
  lemma {:induction false} TakeLowest(sorted: seq<Entry>, side: Side, limit: nat)
    requires LevelsOf(sorted, side) && Covers(sorted, side) && StrictlyAscending(sorted)
    ensures var r := Take(sorted, limit);
      |r| <= limit && StrictlyAscending(r) && LevelsOf(r, side) &&
      forall p :: p in side ==>
        (exists i :: 0 <= i < |r| && r[i].price == p) ||
        (|r| == limit && forall i :: 0 <= i < |r| ==> r[i].price < p)
  {
    var r := Take(sorted, limit);
    assert forall i :: 0 <= i < |r| ==> r[i] == sorted[i];
    forall p | p in side
      ensures (exists i :: 0 <= i < |r| && r[i].price == p) ||
              (|r| == limit && forall i :: 0 <= i < |r| ==> r[i].price < p)
    {
      var j :| 0 <= j < |sorted| && sorted[j].price == p;
      if j < |r| {
        assert r[j].price == p;
      }
    }
  }

  /**
   * The bid half of `getFilteredOrders(limit)`: qualifying bids, highest price
   * first, at most `limit` of them. No qualifying bid is left out in favour of
   * a lower one.
   */
  function TopBids(bids: Side, minQuantity: real, limit: nat): (r: seq<Entry>)
    ensures |r| <= limit && StrictlyDescending(r)
    ensures forall i :: 0 <= i < |r| ==> r[i].price in bids && bids[r[i].price] == r[i].quantity && r[i].quantity >= minQuantity
    ensures forall p :: p in bids && bids[p] >= minQuantity ==>
              (exists i :: 0 <= i < |r| && r[i].price == p) ||
              (|r| == limit && forall i :: 0 <= i < |r| ==> r[i].price > p)
  {
    var qualifying := AtLeast(bids, minQuantity);
    DescendingLevels(qualifying);
    DescendingCovers(qualifying);
    DescendingSorted(qualifying);
    TakeHighest(Descending(qualifying), qualifying, limit);
    AtLeastLevels(Take(Descending(qualifying), limit), bids, minQuantity);
    Take(Descending(qualifying), limit)
  }

  /**
   * The ask half of `getFilteredOrders(limit)`: qualifying asks, lowest price
   * first, at most `limit` of them. No qualifying ask is left out in favour of
   * a higher one.
   */
  function TopAsks(asks: Side, minQuantity: real, limit: nat): (r: seq<Entry>)
    ensures |r| <= limit && StrictlyAscending(r)
    ensures forall i :: 0 <= i < |r| ==> r[i].price in asks && asks[r[i].price] == r[i].quantity && r[i].quantity >= minQuantity
    ensures forall p :: p in asks && asks[p] >= minQuantity ==>
              (exists i :: 0 <= i < |r| && r[i].price == p) ||
              (|r| == limit && forall i :: 0 <= i < |r| ==> r[i].price < p)
  {
    var qualifying := AtLeast(asks, minQuantity);
    AscendingLevels(qualifying);
    AscendingCovers(qualifying);
    AscendingSorted(qualifying);
    TakeLowest(Ascending(qualifying), qualifying, limit);
    AtLeastLevels(Take(Ascending(qualifying), limit), asks, minQuantity);
    Take(Ascending(qualifying), limit)
  }

  /**
   * A stable merge of two price-ordered lists, the left one first on equal
   * prices: what a stable `sortedBy { it.price }` makes of `xs + ys` when
   * each of them is already ordered.
   */
  function Merge(xs: seq<Entry>, ys: seq<Entry>): (r: seq<Entry>)
    ensures |r| == |xs| + |ys|
    decreases |xs| + |ys|
  {
    if xs == [] then ys
    else if ys == [] then xs
    else if xs[0].price <= ys[0].price then [xs[0]] + Merge(xs[1..], ys)
    else [ys[0]] + Merge(xs, ys[1..])
  }

  /** Merging loses and invents nothing: the result is a permutation of `xs + ys`. */
  lemma {:induction false} MergePermutes(xs: seq<Entry>, ys: seq<Entry>)
    ensures multiset(Merge(xs, ys)) == multiset(xs) + multiset(ys)
    decreases |xs| + |ys|
  {
    if xs != [] && ys != [] {
      if xs[0].price <= ys[0].price {
        MergePermutes(xs[1..], ys);
        assert xs == [xs[0]] + xs[1..];
      } else {
        MergePermutes(xs, ys[1..]);
        assert ys == [ys[0]] + ys[1..];
      }
    }
  }

  /** Every price of a merge is bounded below by any common lower bound of its inputs. */
  lemma {:induction false} MergeBounded(xs: seq<Entry>, ys: seq<Entry>, b: real)
    requires forall i :: 0 <= i < |xs| ==> b <= xs[i].price
    requires forall i :: 0 <= i < |ys| ==> b <= ys[i].price
    ensures forall i :: 0 <= i < |Merge(xs, ys)| ==> b <= Merge(xs, ys)[i].price
    decreases |xs| + |ys|
  {
    if xs != [] && ys != [] {
      if xs[0].price <= ys[0].price {
        MergeBounded(xs[1..], ys, b);
      } else {
        MergeBounded(xs, ys[1..], b);
      }
    }
  }

  /** Putting a price no greater than any other in front of an ordered list keeps it ordered. */
  lemma ConsSorted(e: Entry, tail: seq<Entry>)
    requires NonDecreasing(tail)
    requires forall i :: 0 <= i < |tail| ==> e.price <= tail[i].price
    ensures NonDecreasing([e] + tail)
  {
    var r := [e] + tail;
    forall i, j | 0 <= i < j < |r| ensures r[i].price <= r[j].price {
      assert r[j] == tail[j - 1];
      if i > 0 {
        assert r[i] == tail[i - 1];
      }
    }
  }

  /** Merging two price-ordered lists gives a price-ordered list. */
  lemma {:induction false} MergeSorted(xs: seq<Entry>, ys: seq<Entry>)
    requires NonDecreasing(xs) && NonDecreasing(ys)
    ensures NonDecreasing(Merge(xs, ys))
    decreases |xs| + |ys|
  {
    if xs != [] && ys != [] {
      if xs[0].price <= ys[0].price {
        MergeSorted(xs[1..], ys);
        MergeBounded(xs[1..], ys, xs[0].price);
        ConsSorted(xs[0], Merge(xs[1..], ys));
      } else {
        MergeSorted(xs, ys[1..]);
        MergeBounded(xs, ys[1..], ys[0].price);
        ConsSorted(ys[0], Merge(xs, ys[1..]));
      }
    }
  }

  /** A complete listing of `side` holds exactly the levels of `side`. */
  lemma ListingMembers(s: seq<Entry>, side: Side)
    requires LevelsOf(s, side) && Covers(s, side)
    ensures forall e: Entry :: e in s <==> e.price in side && side[e.price] == e.quantity
  {
    forall e: Entry | e.price in side && side[e.price] == e.quantity ensures e in s {
      var j :| 0 <= j < |s| && s[j].price == e.price;
      assert s[j] == e;
    }
  }

  /** The levels of a merge are those of its two inputs. */
  lemma MergeMembers(xs: seq<Entry>, ys: seq<Entry>)
    ensures forall e: Entry :: e in Merge(xs, ys) <==> e in xs || e in ys
  {
    MergePermutes(xs, ys);
    assert forall e: Entry :: e in Merge(xs, ys) <==> e in multiset(Merge(xs, ys));
  }

  /** A strictly ascending list holds each of its elements exactly once. */
  lemma {:induction false} AscendingOnce(s: seq<Entry>)
    requires StrictlyAscending(s)
    ensures forall e: Entry :: multiset(s)[e] == if e in s then 1 else 0
    decreases |s|
  {
    if s != [] {
      var tail := s[1..];
      forall i, j | 0 <= i < j < |tail| ensures tail[i].price < tail[j].price {
        assert tail[i] == s[i + 1] && tail[j] == s[j + 1];
      }
      AscendingOnce(tail);
      forall j | 0 <= j < |tail| ensures tail[j] != s[0] {
        assert tail[j] == s[j + 1];
      }
      assert s == [s[0]] + tail;
    }
  }

  /** How often a level of `side` holding at least `minQuantity` is `e`: 1 or 0. */
  function Qualifying(e: Entry, side: Side, minQuantity: real): nat {
    if e.price in side && side[e.price] == e.quantity && e.quantity >= minQuantity then 1 else 0
  }

  /** The ascending listing of the levels of `side` holding at least `minQuantity`. */
  lemma AscendingAtLeast(side: Side, minQuantity: real)
    ensures NonDecreasing(Ascending(AtLeast(side, minQuantity)))
    ensures forall e: Entry :: e in Ascending(AtLeast(side, minQuantity)) <==>
              e.price in side && side[e.price] == e.quantity && e.quantity >= minQuantity
  {
    var big := AtLeast(side, minQuantity);
    AscendingLevels(big);
    AscendingCovers(big);
    AscendingSorted(big);
    ListingMembers(Ascending(big), big);
  }

  /** The ascending listing of the qualifying levels holds each of them exactly once. */
  lemma AscendingAtLeastOnce(side: Side, minQuantity: real)
    ensures forall e: Entry :: multiset(Ascending(AtLeast(side, minQuantity)))[e] == Qualifying(e, side, minQuantity)
  {
    var listing := Ascending(AtLeast(side, minQuantity));
    AscendingAtLeast(side, minQuantity);
    AscendingSorted(AtLeast(side, minQuantity));
    AscendingOnce(listing);
    forall e: Entry ensures multiset(listing)[e] == Qualifying(e, side, minQuantity) {
      assert e in listing <==> Qualifying(e, side, minQuantity) == 1;
    }
  }

  /**
   * `getBigOrders()`: every level of either side holding at least
   * `minQuantity`, bids and asks together, each once per side it is a level
   * of, in non-decreasing price order (a
   * bid first where a bid and an ask share a price, as the stable sort of
   * bids-then-asks leaves them).
   */
  function BigOrders(bids: Side, asks: Side, minQuantity: real): (r: seq<Entry>)
    ensures NonDecreasing(r)
    ensures forall e: Entry :: e in r <==>
              (e.price in bids && bids[e.price] == e.quantity && e.quantity >= minQuantity) ||
              (e.price in asks && asks[e.price] == e.quantity && e.quantity >= minQuantity)
    ensures |r| == |AtLeast(bids, minQuantity)| + |AtLeast(asks, minQuantity)|
    ensures forall e: Entry :: multiset(r)[e] == Qualifying(e, bids, minQuantity) + Qualifying(e, asks, minQuantity)
  {
    var xs := Ascending(AtLeast(bids, minQuantity));
    var ys := Ascending(AtLeast(asks, minQuantity));
    AscendingAtLeast(bids, minQuantity);
    AscendingAtLeast(asks, minQuantity);
    MergeSorted(xs, ys);
    MergeMembers(xs, ys);
    AscendingAtLeastOnce(bids, minQuantity);
    AscendingAtLeastOnce(asks, minQuantity);
    MergePermutes(xs, ys);
    Merge(xs, ys)
  }

  // ------------------------------------------------------------------ sums

  /** The sum of the quantities on `side` (`values.sum()`). */
  function Total(side: Side): (r: real)
    ensures NonNegative(side) ==> r >= 0.0
    decreases |side|
  {
    if |side| == 0 then 0.0
    else
      var k := MinKey(side.Keys);
      RemoveOne(side, k);
      side[k] + Total(side - {k})
  }

  /**
   * The sum does not depend on the order the levels are visited in: any level
   * may be taken out first.
   */
  lemma {:induction false} TotalWithout(side: Side, k: real)
    requires k in side
    ensures Total(side) == side[k] + Total(side - {k})
    decreases |side|
  {
    var m := MinKey(side.Keys);
    if k != m {
      RemoveOne(side, m);
      RemoveOne(side, k);
      var a := side - {m};
      var b := side - {k};
      TotalWithout(a, k);
      assert a - {k} == b - {m};
      assert MinKey(b.Keys) == m;
      RemoveOne(b, m);
    }
  }

  /** The levels of `side` priced in the closed interval [lo, hi]. */
  function Within(side: Side, lo: real, hi: real): (r: Side)
    ensures forall p :: p in r <==> p in side && lo <= p <= hi
    ensures forall p :: p in r ==> r[p] == side[p]
  {
    map p | p in side && lo <= p <= hi :: side[p]
  }

  // ----------------------------------------------------------- depth ratio

  /** The bid volume of a band: bids priced from `lowerPercent` below `mid` up to `mid`. */
  function BidVolume(bids: Side, mid: real, lowerPercent: real): real {
    Total(Within(bids, mid * (1.0 - lowerPercent / 100.0), mid))
  }

  /** The ask volume of a band: asks priced from `mid` up to `upperPercent` above it. */
  function AskVolume(asks: Side, mid: real, upperPercent: real): real {
    Total(Within(asks, mid, mid * (1.0 + upperPercent / 100.0)))
  }


  /** A book without negative quantities has no negative band volume. */
  lemma BandVolumesNonNegative(bids: Side, asks: Side, mid: real, lowerPercent: real, upperPercent: real)
    ensures NonNegative(bids) ==> BidVolume(bids, mid, lowerPercent) >= 0.0
    ensures NonNegative(asks) ==> AskVolume(asks, mid, upperPercent) >= 0.0
  {
    var lo := Within(bids, mid * (1.0 - lowerPercent / 100.0), mid);
    var hi := Within(asks, mid, mid * (1.0 + upperPercent / 100.0));
    assert NonNegative(bids) ==> NonNegative(lo);
    assert NonNegative(asks) ==> NonNegative(hi);
  }

  /** Dividing a difference by a positive total it cannot exceed gives a share in [-1, 1]. */
  lemma ShareBounds(delta: real, total: real)
    requires total > 0.0
    ensures -total <= delta <= total ==> -1.0 <= delta / total <= 1.0
    ensures delta / total > 0.0 <==> delta > 0.0
  {
    var q := delta / total;
    assert q * total == delta;
    if q > 1.0 {
      assert q * total > 1.0 * total;
    }
    if q < -1.0 {
      assert q * total < -1.0 * total;
    }
    if q > 0.0 {
      assert q * total > 0.0 * total;
    }
  }

  /**
   * The depth record of a band whose two volumes do not cancel out: the
   * imbalance `delta` and its share `ratio` of the total volume.
   */
  function Ratio(band: Band, bidsVolume: real, asksVolume: real): (r: PriceRangeRatio)
    requires bidsVolume + asksVolume != 0.0
    ensures r.range == band && r.bidsVolume == bidsVolume && r.asksVolume == asksVolume
    ensures r.delta == bidsVolume - asksVolume
    ensures r.ratio * (bidsVolume + asksVolume) == r.delta
    ensures bidsVolume >= 0.0 && asksVolume >= 0.0 ==> -1.0 <= r.ratio <= 1.0
    ensures bidsVolume >= 0.0 && asksVolume >= 0.0 ==> (r.ratio > 0.0 <==> bidsVolume > asksVolume)
  {
    var total := bidsVolume + asksVolume;
    var delta := bidsVolume - asksVolume;
    if total > 0.0 then
      ShareBounds(delta, total);
      PriceRangeRatio(band, delta / total, bidsVolume, asksVolume, delta)
    else
      PriceRangeRatio(band, delta / total, bidsVolume, asksVolume, delta)
  }
}
