/** The least-recently-used image cache of the gallery example (crates/gpui/examples/image_gallery.rs). */
module ImageCaches {
  import opened Options
  import opened Sequences

  type Key = nat
  type Item = nat

  // ----- Recency -----

  function Without(s: seq<Key>, k: Key): (r: seq<Key>)
    ensures forall x :: x in r <==> x in s && x != k
  {
    if s == [] then []
    else (if s[0] == k then [] else [s[0]]) + Without(s[1..], k)
  }

  /** The distinct keys of a history of loads, most recently used first. */
  function Recent(history: seq<Key>): seq<Key> {
    if history == [] then []
    else
      var last := history[|history| - 1];
      [last] + Without(Recent(history[..|history| - 1]), last)
  }

  function Take(s: seq<Key>, n: nat): seq<Key> {
    if n < |s| then s[..n] else s
  }

  /** The position of the last use of a key. */
  function LastUse(history: seq<Key>, k: Key): (i: nat)
    requires k in history
    ensures i < |history| && history[i] == k && forall j :: i < j < |history| ==> history[j] != k
  {
    var n := |history| - 1;
    if history[n] == k then n
    else
      assert history == history[..n] + [history[n]];
      LastUse(history[..n], k)
  }

  lemma {:induction false} WithoutSplits(s: seq<Key>, p: nat)
    requires Distinct(s) && p < |s|
    ensures Without(s, s[p]) == s[..p] + s[p + 1..]
  {
    if p == 0 {
      WithoutAbsent(s[1..], s[0]);
      assert s[..0] + s[1..] == s[1..];
    } else {
      WithoutSplits(s[1..], p - 1);
      assert s[1..][p - 1] == s[p];
      assert [s[0]] + (s[1..][..p - 1] + s[1..][p..]) == s[..p] + s[p + 1..];
    }
  }

  lemma {:induction false} WithoutAbsent(s: seq<Key>, k: Key)
    requires k !in s
    ensures Without(s, k) == s
  {
    if s != [] {
      WithoutAbsent(s[1..], k);
    }
  }

  lemma {:induction false} WithoutDistinct(s: seq<Key>, k: Key)
    requires Distinct(s)
    ensures Distinct(Without(s, k))
  {
    if k in s {
      var p :| 0 <= p < |s| && s[p] == k;
      WithoutSplits(s, p);
    } else {
      WithoutAbsent(s, k);
    }
  }

  lemma {:induction false} RecentDistinct(history: seq<Key>)
    ensures Distinct(Recent(history))
  {
    if history != [] {
      var front, last := history[..|history| - 1], history[|history| - 1];
      RecentDistinct(front);
      WithoutDistinct(Recent(front), last);
      var rest := Without(Recent(front), last);
      forall i | 0 <= i < |rest| ensures rest[i] != last {
        assert rest[i] in rest;
      }
    }
  }

  /** The keys are from the history, those used later first. */
  ghost predicate ByLastUse(history: seq<Key>, keys: seq<Key>) {
    && (forall i :: 0 <= i < |keys| ==> keys[i] in history)
    && (forall i, j :: 0 <= i < j < |keys| ==> LastUse(history, keys[i]) > LastUse(history, keys[j]))
  }

  lemma ByLastUseWithout(history: seq<Key>, keys: seq<Key>, k: Key)
    requires ByLastUse(history, keys) && Distinct(keys)
    ensures ByLastUse(history, Without(keys, k))
  {
    hide LastUse, Without, ByLastUse;
    if k in keys {
      var p := Position(keys, k);
      WithoutSplits(keys, p);
      ByLastUseCut(history, keys, p);
    } else {
      WithoutAbsent(keys, k);
    }
  }

  lemma ByLastUseCut(history: seq<Key>, keys: seq<Key>, p: nat)
    requires ByLastUse(history, keys) && p < |keys|
    ensures ByLastUse(history, keys[..p] + keys[p + 1..])
  {
    hide LastUse;
    var rest := keys[..p] + keys[p + 1..];
    forall i | 0 <= i < |rest| ensures rest[i] == keys[if i < p then i else i + 1] {
    }
  }

  lemma LastUseExtends(history: seq<Key>, last: Key, k: Key)
    requires k in history && k != last
    ensures k in history + [last] && LastUse(history + [last], k) == LastUse(history, k)
  {
    assert (history + [last])[..|history|] == history;
  }

  lemma ByLastUsePush(history: seq<Key>, last: Key, keys: seq<Key>)
    requires ByLastUse(history, keys) && last !in keys
    ensures ByLastUse(history + [last], [last] + keys)
  {
    var more, all := history + [last], [last] + keys;
    assert last in more by {
      assert more[|history|] == last;
    }
    assert LastUse(more, last) == |history|;
    forall i | 0 <= i < |keys| ensures keys[i] in more && LastUse(more, keys[i]) == LastUse(history, keys[i]) {
      assert keys[i] in keys;
      LastUseExtends(history, last, keys[i]);
    }
    hide LastUse;
    assert forall i :: 0 < i < |all| ==> all[i] == keys[i - 1];
  }

  /** `Recent` is what its name says: it lists the keys of the history, each once, later last uses first. */
  lemma {:induction false} RecentIsByLastUse(history: seq<Key>)
    ensures forall k :: k in Recent(history) <==> k in history
    ensures Distinct(Recent(history)) && ByLastUse(history, Recent(history))
  {
    RecentDistinct(history);
    if history != [] {
      var n := |history| - 1;
      var front, last := history[..n], history[n];
      assert history == front + [last];
      RecentIsByLastUse(front);
      ByLastUseWithout(front, Recent(front), last);
      ByLastUsePush(front, last, Without(Recent(front), last));
      hide ByLastUse, Distinct;
      assert forall k :: k in history <==> k in front || k == last;
    }
  }

  /** The first `n`, or all if there are not so many. */
  lemma TakeIsFirst(s: seq<Key>, n: nat)
    ensures |Take(s, n)| == (if n < |s| then n else |s|) && forall i :: 0 <= i < |Take(s, n)| ==> Take(s, n)[i] == s[i]
  {
  }

  /** One more use, as seen from the first `n` recent keys alone. */
  lemma TakeAfterUse(r: seq<Key>, n: nat, k: Key)
    requires Distinct(r) && n >= 1
    ensures k in Take(r, n) ==> Take([k] + Without(r, k), n) == [k] + Without(Take(r, n), k)
    ensures k !in Take(r, n) ==> Take([k] + Without(r, k), n) == [k] + Take(r, n - 1)
  {
    var t := Take(r, n);
    if k in r {
      var p :| 0 <= p < |r| && r[p] == k;
      WithoutSplits(r, p);
      if p < |t| {
        assert t[p] == k;
        WithoutSplits(t, p);
        TakeWithin(r, n, k, p);
      } else {
        assert k !in t;
        TakeBeyond(r, n, k, p);
      }
    } else {
      WithoutAbsent(r, k);
      assert k !in t;
      assert Take([k] + r, n) == [k] + Take(r, n - 1);
    }
  }

  lemma TakeWithin(r: seq<Key>, n: nat, k: Key, p: nat)
    requires n >= 1 && p < |Take(r, n)|
    ensures Take([k] + (r[..p] + r[p + 1..]), n) == [k] + (Take(r, n)[..p] + Take(r, n)[p + 1..])
  {
    if n < |r| {
      assert r[..n][..p] == r[..p] && r[..n][p + 1..] == r[p + 1..n];
      assert ([k] + (r[..p] + r[p + 1..]))[..n] == [k] + (r[..p] + r[p + 1..n]);
    }
  }

  lemma TakeBeyond(r: seq<Key>, n: nat, k: Key, p: nat)
    requires 1 <= n <= p < |r|
    ensures Take([k] + (r[..p] + r[p + 1..]), n) == [k] + Take(r, n - 1)
  {
    var x := [k] + (r[..p] + r[p + 1..]);
    assert |x| == |r|;
    assert x[..n] == [k] + r[..n - 1];
  }

  // ----- The cache -----

  class SimpleLruCache {
    const maxItems: nat
    var usages: seq<Key>
    var cache: map<Key, Item>
    ghost var history: seq<Key>

    /** The usage list is exactly the `maxItems` most recently used keys, and those keys are cached. */
    ghost predicate Valid()
      reads this
    {
      && usages == Take(Recent(history), maxItems)
      && (forall k :: k in cache <==> k in usages)
    }

    constructor (maxItems: nat)
      ensures Valid() && history == [] && this.maxItems == maxItems
    {
      this.maxItems := maxItems;
      usages, cache, history := [], map[], [];
    }

    /**
     `load`: `item` is what loading the key anew would yield. A key among the most recently used is served
     from the cache; any other evicts the least recently used one when the cache is full. The two assertions
     at its start hold, and it fails exactly if the cache was created for no items at all.
     */
    method Load(key: Key, item: Item) returns (ok: bool, result: Item, evicted: Option<Key>)
      requires Valid()
      modifies this
      ensures ok <==> maxItems >= 1
      ensures ok ==> Valid() && history == old(history) + [key]
      ensures ok ==> key in cache && cache[key] == result
      ensures ok && key in old(usages) ==> result == old(cache)[key] && cache == old(cache) && evicted == None
      ensures ok && key !in old(usages) ==>
                && result == item
                && evicted == (if |old(usages)| == maxItems then Some(old(usages)[maxItems - 1]) else None)
                && cache == (if evicted.Some? then old(cache) - {evicted.value} else old(cache))[key := item]
      ensures !ok ==> usages == [] && cache == map[] && history == old(history)
    {
      hide Recent, Take, Without, Distinct;
      RecentDistinct(history);
      TakeDistinct(Recent(history), maxItems);
      SameSize(usages, cache.Keys);
      assert |usages| == |cache.Keys| <= maxItems;
      evicted := None;
      if maxItems >= 1 {
        UsagesAfter(history, maxItems, key);
      }
      if key in cache {
        var p := Position(usages, key);
        usages := [key] + (usages[..p] + usages[p + 1..]);
        history := history + [key];
        return true, cache[key], None;
      }
      if |usages| == maxItems {
        if usages == [] {
          assert cache.Keys == {};
          return false, item, None;
        }
        var oldest := EvictOldest();
        evicted := Some(oldest);
      }
      cache := cache[key := item];
      usages := [key] + usages;
      history := history + [key];
      return true, item, evicted;
    }

    /** Drops the last key of the usage list, which must be cached. */
    method EvictOldest() returns (oldest: Key)
      requires usages != [] && Distinct(usages) && forall k :: k in cache <==> k in usages
      modifies `usages, `cache
      ensures oldest == old(usages)[|old(usages)| - 1] && oldest in old(cache)
      ensures usages == old(usages)[..|old(usages)| - 1] && cache == old(cache) - {oldest}
      ensures forall k :: k in cache <==> k in usages
    {
      oldest := usages[|usages| - 1];
      OthersFirst(usages);
      usages := usages[..|usages| - 1];
      cache := cache - {oldest};
    }
  }

  lemma OthersFirst(s: seq<Key>)
    requires s != [] && Distinct(s)
    ensures forall k :: k in s[..|s| - 1] <==> k in s && k != s[|s| - 1]
  {
    var n := |s| - 1;
    forall k | k in s && k != s[n] ensures k in s[..n] {
      var i :| 0 <= i < |s| && s[i] == k;
      assert s[..n][i] == k;
    }
  }

  /** The usage list after one more use: the key moves to the front, or comes in front of a list that has made
      room for it. */
  lemma UsagesAfter(history: seq<Key>, n: nat, key: Key)
    requires n >= 1
    ensures var old_, new_ := Take(Recent(history), n), Take(Recent(history + [key]), n);
            && (key in old_ ==> new_ == [key] + (old_[..Position(old_, key)] + old_[Position(old_, key) + 1..]))
            && (key !in old_ ==> new_ == [key] + (if |old_| == n then old_[..n - 1] else old_))
  {
    RecentDistinct(history);
    TakeDistinct(Recent(history), n);
    TakeAfterUse(Recent(history), n, key);
    RecentPush(history, key);
    TakeShorter(Recent(history), n);
    hide Recent, Take, Without, Distinct;
    var old_ := Take(Recent(history), n);
    if key in old_ {
      WithoutSplits(old_, Position(old_, key));
    }
  }

  lemma RecentPush(history: seq<Key>, key: Key)
    ensures Recent(history + [key]) == [key] + Without(Recent(history), key)
  {
    assert (history + [key])[..|history|] == history;
  }

  lemma TakeShorter(s: seq<Key>, n: nat)
    requires n >= 1
    ensures Take(s, n - 1) == if |Take(s, n)| == n then Take(s, n)[..n - 1] else Take(s, n)
  {
  }

  lemma TakeDistinct(s: seq<Key>, n: nat)
    requires Distinct(s)
    ensures Distinct(Take(s, n)) && |Take(s, n)| <= n
  {
  }

  lemma {:induction false} SameSize(s: seq<Key>, keys: set<Key>)
    requires Distinct(s) && forall k :: k in keys <==> k in s
    ensures |keys| == |s|
  {
    if s == [] {
      assert keys == {};
    } else {
      var n := |s| - 1;
      assert s == s[..n] + [s[n]];
      SameSize(s[..n], keys - {s[n]});
    }
  }
}
