/** The meta-search front end (backend/services/web_search.py): candidate
    accumulation over the query variations and languages, ranking,
    truncation and the result cache, and the line filter applied to
    scraped pages. The HTTP requests and the HTML extraction are not
    modelled: their outcomes are parameters. */
module WebSearch {
  import opened Common
  import opened Text
  import opened Ranking
  import Knowledge
  import Db

  /** The query variations tried, in order. */
  function SearchVariations(query: string): (vs: seq<string>)
    ensures |vs| == 3 && vs[0] == query && vs[1] == query + " 2024" && vs[2] == query + " detaylı"
  {
    [query, query + " 2024", query + " detaylı"]
  }

  /** The parameters of one search request; an empty language is not sent. */
  datatype SearchRequest = SearchRequest(q: string, language: Option<string>)

  function LanguageParam(lang: string): Option<string> {
    if lang != "" then Some(lang) else None
  }

  /** The requests, variation by variation, each first in the requested
      language and then in "all". It documents the order of the responses
      the search takes; the search's lemmas hold for responses of any
      shape, so nothing ties the two together. */
  function SearchRequests(query: string, language: string): (rs: seq<seq<SearchRequest>>)
    ensures |rs| == 3 && forall v :: 0 <= v < 3 ==> |rs[v]| == 2
    ensures forall v :: 0 <= v < 3 ==>
              rs[v][0].q == rs[v][1].q == SearchVariations(query)[v]
              && rs[v][0].language == LanguageParam(language) && rs[v][1].language == Some("all")
  {
    var vs := SearchVariations(query);
    [[SearchRequest(vs[0], LanguageParam(language)), SearchRequest(vs[0], LanguageParam("all"))],
     [SearchRequest(vs[1], LanguageParam(language)), SearchRequest(vs[1], LanguageParam("all"))],
     [SearchRequest(vs[2], LanguageParam(language)), SearchRequest(vs[2], LanguageParam("all"))]]
  }

  /** One item of a response, its fields already defaulted to "". */
  datatype RawItem = RawItem(url: string, title: string, content: string)

  /** The outcome of one request: a status other than 200, a decoded result
      list (possibly empty), or an exception, which abandons the search. */
  datatype Response = HttpError | Payload(items: seq<RawItem>) | Raised

  datatype WebResult = WebResult(title: string, url: string, content: string, qualityScore: real, domainTrust: real)

  const SkipDomains: seq<string> :=
    ["facebook.com", "twitter.com", "instagram.com", "youtube.com", "tiktok.com", "pinterest.com"]

  /** The quality floor an item must reach. */
  const MinQuality: real := 0.15

  /** What every accepted result satisfies. */
  predicate WellFormed(r: WebResult) {
    |r.title| <= 150 && |r.content| <= 400 && r.qualityScore >= MinQuality
    && !ContainsAny(r.url, SkipDomains) && r.domainTrust == Knowledge.DomainTrust(r.url)
  }

  /** The filter and trimming applied to one item: an item is accepted
      exactly when its URL avoids the skipped domains and its assessed
      quality reaches the floor, and then keeps its URL, its title and
      content cut to 150 and 400 characters, and its assessed scores. */
  function Candidate(item: RawItem): (r: Option<WebResult>)
    ensures r.Some? <==> !ContainsAny(item.url, SkipDomains)
                         && Knowledge.AssessContentQuality(item.content, item.title, item.url).qualityScore >= MinQuality
    ensures r.Some? ==>
              var qa := Knowledge.AssessContentQuality(item.content, item.title, item.url);
              && WellFormed(r.value) && r.value.url == item.url
              && r.value.title == PyTake(item.title, 150) && r.value.content == PyTake(item.content, 400)
              && r.value.qualityScore == qa.qualityScore && r.value.domainTrust == qa.domainTrust
  {
    if ContainsAny(item.url, SkipDomains) then None
    else
      var qa := Knowledge.AssessContentQuality(item.content, item.title, item.url);
      if qa.qualityScore < MinQuality then None
      else Some(WebResult(PyTake(item.title, 150), item.url, PyTake(item.content, 400), qa.qualityScore, qa.domainTrust))
  }

  /** Trusted results (trust above 0.8) go to the front, the others to the
      back. */
  function Place(acc: seq<WebResult>, r: WebResult): seq<WebResult> {
    if r.domainTrust > 0.8 then [r] + acc else acc + [r]
  }

  /** The item loop: it stops as soon as the list reaches twice the
      requested count. */
  function ScanItems(acc: seq<WebResult>, items: seq<RawItem>, maxResults: int): (r: seq<WebResult>)
    ensures |acc| <= |r| <= |acc| + |items|
    ensures forall x :: x in acc ==> x in r
    decreases |items|
  {
    if items == [] then acc
    else
      match Candidate(items[0])
      case None => ScanItems(acc, items[1..], maxResults)
      case Some(r) =>
        var acc' := Place(acc, r);
        if |acc'| >= 2 * maxResults then acc' else ScanItems(acc', items[1..], maxResults)
  }

  /** The accumulated list and whether an exception ended the search. */
  datatype Scan = Scan(results: seq<WebResult>, raised: bool)

  /** The language loop of one variation. A failed or empty response moves
      on without the size check; a non-empty one is scanned and then
      checked. */
  function ScanLanguages(acc: seq<WebResult>, rs: seq<Response>, maxResults: int): (s: Scan)
    ensures |acc| <= |s.results|
    ensures forall x :: x in acc ==> x in s.results
    ensures forall k :: 0 <= k < |rs| && rs[k].Raised? && (forall j :: 0 <= j < k ==> rs[j].HttpError?) ==>
              s == Scan(acc, true)
    decreases |rs|
  {
    if rs == [] then Scan(acc, false)
    else
      match rs[0]
      case Raised => Scan(acc, true)
      case HttpError => ScanLanguages(acc, rs[1..], maxResults)
      case Payload(items) =>
        if items == [] then ScanLanguages(acc, rs[1..], maxResults)
        else
          var acc' := ScanItems(acc, items, maxResults);
          if |acc'| >= 2 * maxResults then Scan(acc', false) else ScanLanguages(acc', rs[1..], maxResults)
  }

  /** The variation loop: it ends on an exception, and after each variation
      once the list is large enough. */
  function ScanVariations(acc: seq<WebResult>, rss: seq<seq<Response>>, maxResults: int): (r: seq<WebResult>)
    ensures |acc| <= |r|
    ensures forall x :: x in acc ==> x in r
    decreases |rss|
  {
    if rss == [] then acc
    else
      var s := ScanLanguages(acc, rss[0], maxResults);
      if s.raised || |s.results| >= 2 * maxResults then s.results
      else ScanVariations(s.results, rss[1..], maxResults)
  }

  /** The candidate accumulation of `advanced_web_search`, over the
      responses to `SearchRequests`, in the same order. */
  method CollectCandidates(responses: seq<seq<Response>>, maxResults: int) returns (all: seq<WebResult>)
    ensures all == ScanVariations([], responses, maxResults)
  {
    all := [];
    var v := 0;
    var stop := false;
    while v < |responses| && !stop
      invariant 0 <= v <= |responses|
      invariant !stop ==> ScanVariations([], responses, maxResults) == ScanVariations(all, responses[v..], maxResults)
      invariant stop ==> ScanVariations([], responses, maxResults) == all
      decreases |responses| - v, !stop
    {
      var langs := responses[v];
      assert responses[v..][0] == langs && responses[v..][1..] == responses[v + 1..];
      var scan := CollectFromLanguages(all, langs, maxResults);
      all := scan.results;
      if scan.raised || |all| >= 2 * maxResults {
        stop := true;
      } else {
        v := v + 1;
      }
    }
  }

  /** The language loop of one variation, with its breaks. */
  method CollectFromLanguages(acc: seq<WebResult>, langs: seq<Response>, maxResults: int) returns (s: Scan)
    ensures s == ScanLanguages(acc, langs, maxResults)
  {
    var all := acc;
    var j := 0;
    while j < |langs|
      invariant 0 <= j <= |langs|
      invariant ScanLanguages(acc, langs, maxResults) == ScanLanguages(all, langs[j..], maxResults)
    {
      assert langs[j..][0] == langs[j] && langs[j..][1..] == langs[j + 1..];
      match langs[j]
      case Raised =>
        return Scan(all, true);
      case HttpError =>
        j := j + 1;
      case Payload(items) =>
        if items != [] {
          all := CollectFromItems(all, items, maxResults);
          if |all| >= 2 * maxResults {
            return Scan(all, false);
          }
        }
        j := j + 1;
    }
    return Scan(all, false);
  }

  /** The item loop, with its break. */
  method CollectFromItems(acc: seq<WebResult>, items: seq<RawItem>, maxResults: int) returns (all: seq<WebResult>)
    ensures all == ScanItems(acc, items, maxResults)
  {
    all := acc;
    var i := 0;
    while i < |items|
      invariant 0 <= i <= |items|
      invariant ScanItems(acc, items, maxResults) == ScanItems(all, items[i..], maxResults)
    {
      assert items[i..][0] == items[i] && items[i..][1..] == items[i + 1..];
      var candidate := Candidate(items[i]);
      if candidate.Some? {
        if candidate.value.domainTrust > 0.8 {
          all := [candidate.value] + all;
        } else {
          all := all + [candidate.value];
        }
        if |all| >= 2 * maxResults {
          return;
        }
      }
      i := i + 1;
    }
  }

  // ---------------------------------------------------------------
  // Properties of the accumulation
  // ---------------------------------------------------------------

  /** Every accepted result is well formed, and no untrusted result comes
      before a trusted one. */
  ghost predicate GoodList(acc: seq<WebResult>) {
    (forall k :: 0 <= k < |acc| ==> WellFormed(acc[k]))
    && forall i, j :: 0 <= i < j < |acc| && acc[i].domainTrust <= 0.8 ==> acc[j].domainTrust <= 0.8
  }

  lemma PlaceKeepsGood(acc: seq<WebResult>, r: WebResult)
    requires GoodList(acc) && WellFormed(r)
    ensures GoodList(Place(acc, r))
  {
    var p := Place(acc, r);
    if r.domainTrust > 0.8 {
      forall k | 0 <= k < |p| ensures WellFormed(p[k]) {
        if k > 0 { assert p[k] == acc[k - 1]; }
      }
      forall i, j | 0 <= i < j < |p| && p[i].domainTrust <= 0.8 ensures p[j].domainTrust <= 0.8 {
        assert p[j] == acc[j - 1];
        assert i > 0 && p[i] == acc[i - 1];
      }
    }
  }

  lemma {:induction false} ScanItemsGood(acc: seq<WebResult>, items: seq<RawItem>, maxResults: int)
    requires GoodList(acc)
    ensures GoodList(ScanItems(acc, items, maxResults))
    decreases |items|
  {
    if items != [] {
      match Candidate(items[0])
      case None => ScanItemsGood(acc, items[1..], maxResults);
      case Some(r) =>
        PlaceKeepsGood(acc, r);
        ScanItemsGood(Place(acc, r), items[1..], maxResults);
    }
  }

  lemma {:induction false} ScanLanguagesGood(acc: seq<WebResult>, rs: seq<Response>, maxResults: int)
    requires GoodList(acc)
    ensures GoodList(ScanLanguages(acc, rs, maxResults).results)
    decreases |rs|
  {
    if rs != [] {
      match rs[0]
      case Raised =>
      case HttpError => ScanLanguagesGood(acc, rs[1..], maxResults);
      case Payload(items) =>
        ScanItemsGood(acc, items, maxResults);
        ScanLanguagesGood(ScanItems(acc, items, maxResults), rs[1..], maxResults);
        ScanLanguagesGood(acc, rs[1..], maxResults);
    }
  }

  /** Every accumulated result passed the filters, and the trusted ones
      come first. */
  lemma {:induction false} ScanVariationsGood(acc: seq<WebResult>, rss: seq<seq<Response>>, maxResults: int)
    requires GoodList(acc)
    ensures GoodList(ScanVariations(acc, rss, maxResults))
    decreases |rss|
  {
    if rss != [] {
      ScanLanguagesGood(acc, rss[0], maxResults);
      ScanVariationsGood(ScanLanguages(acc, rss[0], maxResults).results, rss[1..], maxResults);
    }
  }

  /** The most candidates the loops can gather: twice the requested count,
      or a single one when the count is not positive. */
  function Bound(maxResults: int): int {
    if maxResults >= 1 then 2 * maxResults else 1
  }

  /** The loops go on only below twice the count, or with nothing gathered. */
  predicate Open(acc: seq<WebResult>, maxResults: int) {
    |acc| < 2 * maxResults || acc == []
  }

  lemma {:induction false} ScanItemsBound(acc: seq<WebResult>, items: seq<RawItem>, maxResults: int)
    requires Open(acc, maxResults)
    ensures var r := ScanItems(acc, items, maxResults);
            |r| <= Bound(maxResults) && (Open(r, maxResults) || |r| >= 2 * maxResults)
    decreases |items|
  {
    if items != [] {
      match Candidate(items[0])
      case None => ScanItemsBound(acc, items[1..], maxResults);
      case Some(r) =>
        var acc' := Place(acc, r);
        if |acc'| < 2 * maxResults {
          ScanItemsBound(acc', items[1..], maxResults);
        }
    }
  }

  lemma {:induction false} ScanLanguagesBound(acc: seq<WebResult>, rs: seq<Response>, maxResults: int)
    requires Open(acc, maxResults)
    ensures var s := ScanLanguages(acc, rs, maxResults);
            |s.results| <= Bound(maxResults) && (Open(s.results, maxResults) || |s.results| >= 2 * maxResults)
    decreases |rs|
  {
    if rs != [] {
      match rs[0]
      case Raised =>
      case HttpError => ScanLanguagesBound(acc, rs[1..], maxResults);
      case Payload(items) =>
        if items == [] {
          ScanLanguagesBound(acc, rs[1..], maxResults);
        } else {
          ScanItemsBound(acc, items, maxResults);
          var acc' := ScanItems(acc, items, maxResults);
          if |acc'| < 2 * maxResults {
            ScanLanguagesBound(acc', rs[1..], maxResults);
          }
        }
    }
  }

  /** At most twice the requested count is gathered (at most one result
      when the count is not positive). */
  lemma {:induction false} ScanVariationsBound(acc: seq<WebResult>, rss: seq<seq<Response>>, maxResults: int)
    requires Open(acc, maxResults)
    ensures |ScanVariations(acc, rss, maxResults)| <= Bound(maxResults)
    decreases |rss|
  {
    if rss != [] {
      ScanLanguagesBound(acc, rss[0], maxResults);
      var s := ScanLanguages(acc, rss[0], maxResults);
      if !s.raised && |s.results| < 2 * maxResults {
        ScanVariationsBound(s.results, rss[1..], maxResults);
      }
    }
  }

  /** While the cap is not reached, every acceptable item of one response
      is kept, and so is what was gathered before. */
  lemma {:induction false} ScanItemsKeepsAll(acc: seq<WebResult>, items: seq<RawItem>, maxResults: int)
    requires |acc| + |items| < 2 * maxResults
    ensures forall k :: 0 <= k < |items| && Candidate(items[k]).Some? ==>
              Candidate(items[k]).value in ScanItems(acc, items, maxResults)
    ensures forall x :: x in acc ==> x in ScanItems(acc, items, maxResults)
    decreases |items|
  {
    if items != [] {
      var rest := items[1..];
      match Candidate(items[0])
      case None =>
        ScanItemsKeepsAll(acc, rest, maxResults);
        forall k | 1 <= k < |items| ensures items[k] == rest[k - 1] {}
      case Some(r) =>
        var acc' := Place(acc, r);
        assert r in acc';
        assert forall x :: x in acc ==> x in acc';
        ScanItemsKeepsAll(acc', rest, maxResults);
        forall k | 1 <= k < |items| ensures items[k] == rest[k - 1] {}
    }
  }

  /** The number of items in the responses of one variation. */
  function ItemCount(rs: seq<Response>): nat {
    if rs == [] then 0 else (if rs[0].Payload? then |rs[0].items| else 0) + ItemCount(rs[1..])
  }

  /** The number of items in the responses of all variations. */
  function ItemCountAll(rss: seq<seq<Response>>): nat {
    if rss == [] then 0 else ItemCount(rss[0]) + ItemCountAll(rss[1..])
  }

  /** With no exception and a count the responses cannot reach, every
      acceptable item of every response of one variation is kept, and the
      search goes on to the next variation. */
  lemma {:induction false} ScanLanguagesKeepsAll(acc: seq<WebResult>, rs: seq<Response>, maxResults: int)
    requires forall k :: 0 <= k < |rs| ==> !rs[k].Raised?
    requires |acc| + ItemCount(rs) < 2 * maxResults
    ensures forall k, i :: 0 <= k < |rs| && rs[k].Payload? && 0 <= i < |rs[k].items| && Candidate(rs[k].items[i]).Some? ==>
              Candidate(rs[k].items[i]).value in ScanLanguages(acc, rs, maxResults).results
    ensures !ScanLanguages(acc, rs, maxResults).raised
    ensures |ScanLanguages(acc, rs, maxResults).results| <= |acc| + ItemCount(rs)
    decreases |rs|
  {
    if rs != [] {
      var rest := rs[1..];
      assert forall k :: 1 <= k < |rs| ==> rs[k] == rest[k - 1];
      match rs[0]
      case HttpError =>
        ScanLanguagesKeepsAll(acc, rest, maxResults);
      case Payload(items) =>
        if items == [] {
          ScanLanguagesKeepsAll(acc, rest, maxResults);
        } else {
          ScanItemsKeepsAll(acc, items, maxResults);
          var acc' := ScanItems(acc, items, maxResults);
          ScanLanguagesKeepsAll(acc', rest, maxResults);
        }
    }
  }

  /** With no exception and a count the responses cannot reach, every
      acceptable item of every response of every variation is gathered. */
  lemma {:induction false} ScanVariationsKeepsAll(acc: seq<WebResult>, rss: seq<seq<Response>>, maxResults: int)
    requires forall v, k :: 0 <= v < |rss| && 0 <= k < |rss[v]| ==> !rss[v][k].Raised?
    requires |acc| + ItemCountAll(rss) < 2 * maxResults
    ensures forall v, k, i :: 0 <= v < |rss| && 0 <= k < |rss[v]| && rss[v][k].Payload? && 0 <= i < |rss[v][k].items|
                              && Candidate(rss[v][k].items[i]).Some? ==>
              Candidate(rss[v][k].items[i]).value in ScanVariations(acc, rss, maxResults)
    decreases |rss|
  {
    if rss != [] {
      ScanLanguagesKeepsAll(acc, rss[0], maxResults);
      var s := ScanLanguages(acc, rss[0], maxResults);
      var rest := rss[1..];
      assert forall v :: 1 <= v < |rss| ==> rss[v] == rest[v - 1];
      ScanVariationsKeepsAll(s.results, rest, maxResults);
    }
  }

  // ---------------------------------------------------------------
  // The search
  // ---------------------------------------------------------------

  /** `f"search_{query}_{max_results}_{language}"`. */
  function CacheKey(query: string, maxResults: int, language: string): (k: string)
    ensures var n := IntToString(maxResults);
            && |k| == 9 + |query| + |n| + |language|
            && k[..7] == "search_" && k[7..7 + |query|] == query && k[7 + |query|] == '_'
            && k[8 + |query|..8 + |query| + |n|] == n && k[|k| - |language| - 1..] == "_" + language
  {
    var n := IntToString(maxResults);
    var head := "search_" + query + "_";
    var tail := n + "_" + language;
    SplitConcat(head, tail);
    SplitConcat("search_", query + "_");
    SplitConcat(query, "_");
    SplitConcat(n, "_" + language);
    head + tail
  }

  lemma SplitConcat(a: string, b: string)
    ensures (a + b)[..|a|] == a && (a + b)[|a|..] == b
  {
  }

  /** Underscores in the query or language make different searches share a
      cache entry. */
  lemma CacheKeyCollides()
    ensures CacheKey("a_1", 2, "x") == CacheKey("a", 1, "2_x")
  {
  }

  /** The ranking key: quality times domain trust. */
  function Score(r: WebResult): real { r.qualityScore * r.domainTrust }

  type ResultCache = Db.CacheState<seq<WebResult>>

  /** `advanced_web_search`: the new cache and the returned results. A
      cached list is used only when non-empty; otherwise the candidates are
      gathered, ranked and truncated, and a non-empty answer is cached. */
  function Search(c: ResultCache, query: string, maxResults: int, language: string,
                  responses: seq<seq<Response>>, now: Instant): (res: (ResultCache, seq<WebResult>))
    ensures c.Valid() ==> res.0.Valid()
    ensures var got := Db.CacheGet(c, CacheKey(query, maxResults, language), now);
            if got.1.Some? && got.1.value != [] then res == (got.0, got.1.value)
            else res.1 == [] ==> res.0 == got.0
  {
    var key := CacheKey(query, maxResults, language);
    var (c1, cached) := Db.CacheGet(c, key, now);
    if cached.Some? && cached.value != [] then (c1, cached.value)
    else
      var all := ScanVariations([], responses, maxResults);
      var ranked := SortDesc(all, Score);
      var final := PyTake(ranked, maxResults);
      var final := if final == [] && all != [] then PyTake(ranked, maxResults) else final;
      if final != [] then (Db.CachePut(c1, key, final, now), final) else (c1, final)
  }

  /** A fresh, non-empty cached answer is returned as it is, whatever the
      responses would have been. */
  lemma SearchCacheHit(c: ResultCache, query: string, maxResults: int, language: string,
                       responses: seq<seq<Response>>, now: Instant)
    requires var key := CacheKey(query, maxResults, language);
             key in c.entries && c.entries[key].value != [] && now - c.entries[key].storedAt < Db.CacheTtl
    ensures Search(c, query, maxResults, language, responses, now).1
            == c.entries[CacheKey(query, maxResults, language)].value
  {
  }

  /** On a miss the answer is the best `maxResults` candidates by score, in
      descending order, each one well formed; an empty answer is never
      written, and a non-empty one is read back while fresh. */
  lemma SearchMiss(c: ResultCache, query: string, maxResults: int, language: string,
                   responses: seq<seq<Response>>, now: Instant, later: Instant)
    requires c.Valid()
    requires var key := CacheKey(query, maxResults, language);
             var cached := Db.CacheGet(c, key, now).1;
             !(cached.Some? && cached.value != [])
    ensures var key := CacheKey(query, maxResults, language);
            var (c', r) := Search(c, query, maxResults, language, responses, now);
            var all := ScanVariations([], responses, maxResults);
            && SortedDesc(r, Score)
            && (maxResults >= 0 ==> |r| == Min(maxResults, |all|))
            && |r| <= Bound(maxResults)
            && (forall k :: 0 <= k < |r| ==> WellFormed(r[k]) && r[k] in all)
            && multiset(r) <= multiset(all)
            && (forall x, y :: x in multiset(all) - multiset(r) && y in r ==> Score(x) <= Score(y))
            && (r == [] ==> c' == Db.CacheGet(c, key, now).0)
            && (r != [] && later - now < Db.CacheTtl ==> Db.CacheGet(c', key, later).1 == Some(r))
  {
    var key := CacheKey(query, maxResults, language);
    var all := ScanVariations([], responses, maxResults);
    var ranked := SortDesc(all, Score);
    ScanVariationsGood([], responses, maxResults);
    ScanVariationsBound([], responses, maxResults);
    var r := PyTake(ranked, maxResults);
    forall k | 0 <= k < |r| ensures WellFormed(r[k]) && r[k] in all {
      assert r[k] == ranked[k];
      assert ranked[k] in multiset(all);
    }
    forall i, j | 0 <= i < j < |r| ensures Score(r[i]) >= Score(r[j]) {
      assert r[i] == ranked[i] && r[j] == ranked[j];
    }
    SortedPrefixIsTop(ranked, Score, |r|);
    if r != [] {
      Db.PutThenGet(Db.CacheGet(c, key, now).0, key, r, now, later);
    }
  }

  /** The fallback for an empty answer with candidates never applies: it
      recomputes the same truncation. */
  lemma FallbackIsDead(all: seq<WebResult>, maxResults: int)
    ensures var ranked := SortDesc(all, Score);
            var final := PyTake(ranked, maxResults);
            (if final == [] && all != [] then PyTake(ranked, maxResults) else final) == final
  {
  }

  /** `advanced_web_search` over the result cache. */
  method AdvancedWebSearch(cache: Db.SearchCache<seq<WebResult>>, query: string, maxResults: int, language: string,
                           responses: seq<seq<Response>>, now: Instant)
    returns (results: seq<WebResult>)
    requires cache.Valid()
    modifies cache
    ensures cache.Valid()
    ensures (cache.State(), results) == Search(old(cache.State()), query, maxResults, language, responses, now)
  {
    var key := CacheKey(query, maxResults, language);
    var cached := cache.ManageCache(key, None, now);
    if cached.Some? && cached.value != [] {
      return cached.value;
    }
    var all := CollectCandidates(responses, maxResults);
    all := SortDesc(all, Score);
    results := PyTake(all, maxResults);
    if results == [] && all != [] {
      results := PyTake(all, maxResults);
    }
    if results != [] {
      var _ := cache.ManageCache(key, Some(results), now);
    }
  }

  // ---------------------------------------------------------------
  // Scraping
  // ---------------------------------------------------------------

  /** The longest scraped text kept. */
  const MaxScrapedLength: nat := 8000

  /** One piece, stripped, if it is long enough to keep. */
  function KeepLine(piece: string): (kept: seq<string>)
    ensures kept == [] || (kept == [Strip(piece)] && |Strip(piece)| > 20)
  {
    var l := Strip(piece);
    if l != "" && |l| > 20 then [l] else []
  }

  /** `[l.strip() for l in pieces if l.strip() and len(l.strip()) > 20]`:
      every piece whose stripped form is longer than 20 characters is kept,
      stripped, and nothing else. */
  function KeptLines(pieces: seq<string>): (lines: seq<string>)
    ensures |lines| <= |pieces|
    ensures forall l :: l in lines ==> |l| > 20
    ensures forall p :: p in pieces && |Strip(p)| > 20 ==> Strip(p) in lines
    ensures forall l :: l in lines ==> exists p :: p in pieces && l == Strip(p)
  {
    if pieces == [] then []
    else
      assert forall p :: p in pieces <==> p == pieces[0] || p in pieces[1..];
      KeepLine(pieces[0]) + KeptLines(pieces[1..])
  }

  /** Lines are kept in the order of their pieces: the kept lines of a
      concatenation are those of the first part, then of the second. */
  lemma {:induction false} KeptLinesAppend(a: seq<string>, b: seq<string>)
    ensures KeptLines(a + b) == KeptLines(a) + KeptLines(b)
    decreases |a|
  {
    if a == [] {
      assert a + b == b;
    } else {
      assert (a + b)[0] == a[0] && (a + b)[1..] == a[1..] + b;
      KeptLinesAppend(a[1..], b);
    }
  }

  /** The text a scrape returns for the extracted page text: the long
      lines, stripped, joined by spaces and truncated. */
  function ScrapeText(text: string): (r: string)
    ensures |r| <= MaxScrapedLength
    ensures var j := Join(" ", KeptLines(SplitOn(text, '\n')));
            |r| == Min(MaxScrapedLength, |j|) && r == j[..|r|]
  {
    PyTake(Join(" ", KeptLines(SplitOn(text, '\n'))), MaxScrapedLength)
  }

  /** A fetched page: its status code and the text extracted from its main
      element. */
  datatype Page = Unreachable | Page(status: int, mainText: string)

  /** `scrape_url`: "" for a failed request or a status other than 200. */
  function ScrapeUrl(page: Page): (r: string)
    ensures |r| <= MaxScrapedLength
    ensures page.Unreachable? || page.status != 200 ==> r == ""
  {
    match page
    case Unreachable => ""
    case Page(status, text) => if status != 200 then "" else ScrapeText(text)
  }

  lemma StripSubstring(s: string)
    ensures forall c :: c in Strip(s) ==> c in s
  {
    var t := TrimStart(s);
    assert forall c :: c in t ==> c in s by {
      assert t == s[|s| - |t|..];
    }
    assert forall c :: c in TrimEnd(t) ==> c in t by {
      assert TrimEnd(t) == t[..|TrimEnd(t)|];
    }
  }

  lemma {:induction false} KeptLinesNoNewline(pieces: seq<string>)
    requires forall p :: p in pieces ==> '\n' !in p
    ensures forall l :: l in KeptLines(pieces) ==> '\n' !in l
    decreases |pieces|
  {
    if pieces != [] {
      assert pieces[0] in pieces;
      StripSubstring(pieces[0]);
      assert forall p :: p in pieces[1..] ==> p in pieces;
      KeptLinesNoNewline(pieces[1..]);
    }
  }

  lemma {:induction false} JoinWithout(sep: string, parts: seq<string>, c: char)
    requires c !in sep && forall p :: p in parts ==> c !in p
    ensures c !in Join(sep, parts)
    decreases |parts|
  {
    if |parts| > 1 {
      assert parts[0] in parts;
      assert forall p :: p in parts[1..] ==> p in parts;
      JoinWithout(sep, parts[1..], c);
    }
  }

  /** Scraped text holds no line break. */
  lemma ScrapeTextSingleLine(text: string)
    ensures '\n' !in ScrapeText(text)
  {
    var pieces := SplitOn(text, '\n');
    var lines := KeptLines(pieces);
    assert forall p :: p in pieces ==> '\n' !in p;
    KeptLinesNoNewline(pieces);
    JoinWithout(" ", lines, '\n');
    var j := Join(" ", lines);
    assert ScrapeText(text) == j[..|ScrapeText(text)|];
  }

  /** A page of one long line comes back stripped (and truncated). */
  lemma ScrapeOneLine(text: string)
    requires '\n' !in text && |Strip(text)| > 20
    ensures ScrapeText(text) == PyTake(Strip(text), MaxScrapedLength)
  {
    SplitOnNoSep(text, '\n');
    assert KeptLines([text]) == [Strip(text)];
  }
}
