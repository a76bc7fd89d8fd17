/** The search cache and the ranking of vector-store hits
    (backend/services/db.py). The cache is an insertion-ordered map whose
    first key is the least recently used: `manage_cache` reads with a
    one-hour time-to-live and writes with a cap of 100 entries. */
module Db {
  import opened Common
  import opened Ranking

  const MaxCacheSize: nat := 100

  /** One hour, in seconds. */
  const CacheTtl: real := 3600.0

  ghost predicate Distinct<T>(s: seq<T>) {
    forall i, j :: 0 <= i < j < |s| ==> s[i] != s[j]
  }

  /** `s` without `k`, the others in their order. */
  function Remove(s: seq<string>, k: string): (r: seq<string>)
    ensures forall x :: x in r <==> x in s && x != k
    ensures k !in s ==> r == s
    ensures Distinct(s) ==> Distinct(r)
    ensures Distinct(s) && k in s ==> |r| == |s| - 1
  {
    if s == [] then []
    else if s[0] == k then Remove(s[1..], k)
    else
      var rest := Remove(s[1..], k);
      assert Distinct(s) ==> s[0] !in s[1..];
      [s[0]] + rest
  }

  /** In a distinct order the one occurrence of `k` is cut out and the
      keys before and after it keep their places. */
  lemma {:induction false} RemoveCuts(s: seq<string>, k: string)
    requires Distinct(s) && k in s
    ensures exists i :: 0 <= i < |s| && s[i] == k && Remove(s, k) == s[..i] + s[i + 1..]
    decreases |s|
  {
    if s[0] == k {
      assert k !in s[1..];
      assert Remove(s, k) == s[..0] + s[1..];
    } else {
      assert k in s[1..];
      RemoveCuts(s[1..], k);
      var i :| 0 <= i < |s[1..]| && s[1..][i] == k && Remove(s[1..], k) == s[1..][..i] + s[1..][i + 1..];
      assert s[i + 1] == k && Remove(s, k) == s[..i + 1] + s[i + 2..];
    }
  }

  lemma DistinctAppend(s: seq<string>, k: string)
    ensures Distinct(s) && k !in s ==> Distinct(s + [k])
  {
  }

  /** Dropping the first key of a distinct order removes that key only. */
  lemma DistinctDropFirst(s: seq<string>)
    ensures Distinct(s) && s != [] ==>
              Distinct(s[1..]) && forall x :: x in s[1..] <==> x in s && x != s[0]
  {
    if Distinct(s) && s != [] {
      forall x | x in s && x != s[0] ensures x in s[1..] {
        var i :| 0 <= i < |s| && s[i] == x;
        assert s[1..][i - 1] == x;
      }
    }
  }

  /** A stored value and the instant it was stored. */
  datatype Entry<V> = Entry(storedAt: Instant, value: V)

  /** The cache's value: the key order (least recently used first) and the
      entries. */
  datatype CacheState<V> = CacheState(order: seq<string>, entries: map<string, Entry<V>>) {
    /** The order lists each key of the map exactly once, and there are at
        most `MaxCacheSize` of them. */
    ghost predicate Valid() {
      Distinct(order) && (forall k :: k in order <==> k in entries) && |order| <= MaxCacheSize
    }
  }

  /** `move_to_end(key)`. */
  function MoveToEnd(order: seq<string>, key: string): seq<string> {
    Remove(order, key) + [key]
  }

  /** The read half of `manage_cache`: the new state and the value returned. */
  function CacheGet<V>(c: CacheState<V>, key: string, now: Instant): (res: (CacheState<V>, Option<V>))
    ensures res.1.Some? ==> key in c.entries && res.1.value == c.entries[key].value
                            && now - c.entries[key].storedAt < CacheTtl
    ensures c.Valid() ==> res.0.Valid()
  {
    if key !in c.entries then (c, None)
    else
      var moved := MoveToEnd(c.order, key);
      var e := c.entries[key];
      if now - e.storedAt < CacheTtl then (CacheState(moved, c.entries), Some(e.value))
      else (CacheState(Remove(moved, key), c.entries - {key}), None)
  }

  /** The write half of `manage_cache`: store, then evict the first key
      while over the cap. */
  function CachePut<V>(c: CacheState<V>, key: string, value: V, now: Instant): (r: CacheState<V>)
    ensures c.Valid() ==> r.Valid()
    ensures c.Valid() ==> key in r.entries && r.entries[key] == Entry(now, value)
  {
    var order := if key in c.entries then c.order else c.order + [key];
    var entries := c.entries[key := Entry(now, value)];
    DistinctAppend(c.order, key);
    if |order| > MaxCacheSize then
      assert c.Valid() ==> order[|order| - 1] == key && order[0] != key;
      DistinctDropFirst(order);
      CacheState(order[1..], entries - {order[0]})
    else CacheState(order, entries)
  }

  /** Reading an absent key returns nothing and changes nothing. */
  lemma GetAbsent<V>(c: CacheState<V>, key: string, now: Instant)
    requires key !in c.entries
    ensures CacheGet(c, key, now) == (c, None)
  {
  }

  /** Reading a present key makes it the most recently used; a fresh entry
      is returned, an expired one is deleted and nothing is returned. The
      other entries are untouched. */
  lemma GetPresent<V>(c: CacheState<V>, key: string, now: Instant)
    requires c.Valid() && key in c.entries
    ensures var (c', r) := CacheGet(c, key, now);
            if now - c.entries[key].storedAt < CacheTtl then
              c'.order == Remove(c.order, key) + [key] && c'.entries == c.entries
              && r == Some(c.entries[key].value)
            else
              c'.order == Remove(c.order, key) && c'.entries == c.entries - {key} && r == None
  {
    var moved := MoveToEnd(c.order, key);
    if now - c.entries[key].storedAt >= CacheTtl {
      assert Remove(moved, key) == Remove(c.order, key) by {
        RemoveAbsentTail(Remove(c.order, key), key);
      }
    }
  }

  lemma {:induction false} RemoveAbsentTail(s: seq<string>, k: string)
    requires k !in s
    ensures Remove(s + [k], k) == s
    decreases |s|
  {
    if s == [] {
      assert Remove([k], k) == Remove([], k);
    } else {
      assert (s + [k])[1..] == s[1..] + [k];
      RemoveAbsentTail(s[1..], k);
    }
  }

  /** Overwriting a key keeps its position; the map entry is replaced. */
  lemma PutExisting<V>(c: CacheState<V>, key: string, value: V, now: Instant)
    requires c.Valid() && key in c.entries
    ensures CachePut(c, key, value, now) == CacheState(c.order, c.entries[key := Entry(now, value)])
  {
  }

  /** A new key goes last; when the cache is full, exactly the first (least
      recently used) key is evicted and every other entry is kept. */
  lemma PutNew<V>(c: CacheState<V>, key: string, value: V, now: Instant)
    requires c.Valid() && key !in c.entries
    ensures var r := CachePut(c, key, value, now);
            if |c.order| < MaxCacheSize then
              r.order == c.order + [key] && r.entries == c.entries[key := Entry(now, value)]
            else
              r.order == c.order[1..] + [key]
              && r.entries == (c.entries - {c.order[0]})[key := Entry(now, value)]
  {
    var order := c.order + [key];
    if |c.order| == MaxCacheSize {
      assert order[1..] == c.order[1..] + [key];
      assert c.order[0] != key;
    }
  }

  /** A value written is read back while it is fresh, and not after. */
  lemma PutThenGet<V>(c: CacheState<V>, key: string, value: V, stored: Instant, now: Instant)
    requires c.Valid()
    ensures CacheGet(CachePut(c, key, value, stored), key, now).1
            == if now - stored < CacheTtl then Some(value) else None
  {
  }

  /** The cache object: the module-level ordered map. */
  class SearchCache<V> {
    var order: seq<string>
    var entries: map<string, Entry<V>>

    function State(): CacheState<V>
      reads this
    {
      CacheState(order, entries)
    }

    ghost predicate Valid()
      reads this
    {
      State().Valid()
    }

    constructor()
      ensures State() == CacheState([], map[]) && Valid()
    {
      order := [];
      entries := map[];
    }

    /** `manage_cache(key, value)`: no value means a read. */
    method ManageCache(key: string, value: Option<V>, now: Instant) returns (r: Option<V>)
      requires Valid()
      modifies this
      ensures Valid()
      ensures value.None? ==> (State(), r) == CacheGet(old(State()), key, now)
      ensures value.Some? ==> State() == CachePut(old(State()), key, value.value, now) && r == value
    {
      if value.None? {
        if key in entries {
          order := Remove(order, key) + [key];
          var e := entries[key];
          if now - e.storedAt < CacheTtl {
            return Some(e.value);
          }
          order := Remove(order, key);
          entries := entries - {key};
        }
        return None;
      } else {
        if key !in entries {
          order := order + [key];
        }
        entries := entries[key := Entry(now, value.value)];
        if |order| > MaxCacheSize {
          entries := entries - {order[0]};
          order := order[1..];
        }
        assert State() == CachePut(old(State()), key, value.value, now);
        return value;
      }
    }
  }

  // ---------------------------------------------------------------
  // Ranking the hits of a semantic search
  // ---------------------------------------------------------------

  /** One hit of the vector-store query: the document, its metadata and its
      distance to the query. */
  datatype RawHit = RawHit(document: string, metadata: map<string, string>, distance: real)

  datatype Doc = Doc(content: string, metadata: map<string, string>, relevance: real)

  /** `round((1 - distance) * 100, 1)`. */
  function Relevance(distance: real): real {
    Round1((1.0 - distance) * 100.0)
  }

  function RelevanceOf(d: Doc): real { d.relevance }

  function ToDoc(h: RawHit): Doc {
    Doc(h.document, h.metadata, Relevance(h.distance))
  }

  /** The hits whose relevance reaches the threshold, as documents, in hit
      order. */
  function KeepRelevant(hits: seq<RawHit>, minRelevance: real): (docs: seq<Doc>)
    ensures |docs| <= |hits|
    ensures forall d :: d in docs <==> exists h :: h in hits && d == ToDoc(h) && d.relevance >= minRelevance
  {
    if hits == [] then []
    else
      var rest := KeepRelevant(hits[..|hits| - 1], minRelevance);
      var d := ToDoc(hits[|hits| - 1]);
      assert forall h :: h in hits <==> h in hits[..|hits| - 1] || h == hits[|hits| - 1];
      rest + (if d.relevance >= minRelevance then [d] else [])
  }

  /** The documents `search_db` returns for the hits of its query: the
      relevant ones, most relevant first. */
  function SearchResults(hits: seq<RawHit>, minRelevance: real): (docs: seq<Doc>)
    ensures |docs| <= |hits|
    ensures SortedDesc(docs, RelevanceOf)
    ensures multiset(docs) == multiset(KeepRelevant(hits, minRelevance))
  {
    SortDesc(KeepRelevant(hits, minRelevance), RelevanceOf)
  }

  /** The post-processing loop of `search_db`, then the in-place sort. */
  method RankHits(hits: seq<RawHit>, minRelevance: real) returns (docs: seq<Doc>)
    ensures docs == SearchResults(hits, minRelevance)
  {
    docs := [];
    var i := 0;
    while i < |hits|
      invariant 0 <= i <= |hits|
      invariant docs == KeepRelevant(hits[..i], minRelevance)
    {
      assert hits[..i + 1][..i] == hits[..i];
      var relevance := Relevance(hits[i].distance);
      if relevance >= minRelevance {
        docs := docs + [Doc(hits[i].document, hits[i].metadata, relevance)];
      }
      i := i + 1;
    }
    assert hits[..|hits|] == hits;
    docs := SortDesc(docs, RelevanceOf);
  }

  /** Every returned document reaches the threshold, none is invented,
      every hit that reaches it is returned, there are no more documents
      than hits, and they come most relevant first. */
  lemma SearchResultsSound(hits: seq<RawHit>, minRelevance: real)
    ensures var docs := SearchResults(hits, minRelevance);
            && |docs| <= |hits|
            && SortedDesc(docs, RelevanceOf)
            && (forall d :: d in docs ==> d.relevance >= minRelevance)
            && (forall d :: d in docs ==> exists h :: h in hits && d == ToDoc(h))
            && (forall h :: h in hits && Relevance(h.distance) >= minRelevance ==> ToDoc(h) in docs)
  {
    var kept := KeepRelevant(hits, minRelevance);
    var docs := SearchResults(hits, minRelevance);
    assert forall d :: d in docs <==> d in kept by {
      assert forall d :: d in docs <==> d in multiset(docs);
      assert forall d :: d in kept <==> d in multiset(kept);
    }
  }
}
