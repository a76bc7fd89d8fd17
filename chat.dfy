/** The rules the chat endpoint applies around its network calls
    (backend/main.py): follow-up detection and query augmentation, the
    acceptance and labelling of scraped pages, and the bounded history of
    confidence scores. */
module Chat {
  import opened Common
  import opened Text
  import Knowledge
  import Memory
  import WebSearch

  // ---------------------------------------------------------------
  // Follow-up questions
  // ---------------------------------------------------------------

  const FollowupTriggers: seq<string> :=
    ["yarın", "peki", "devam", "sonra", "o", "bu", "yarın nasıl", "hangisi"]

  /** The normalised text the detector looks at. */
  function Normalised(text: string): string {
    Lower(Strip(text))
  }

  /** `looks_followup`: a trigger occurs anywhere in the normalised text,
      or it has fewer than three words. */
  function LooksFollowup(text: string): (r: bool)
    ensures |Split(Normalised(text))| < 3 ==> r
    ensures Contains(Normalised(text), FollowupTriggers[0]) ==> r
  {
    var t := Normalised(text);
    ContainsAny(t, FollowupTriggers) || |Split(t)| < 3
  }

  /** Both directions of the rule, with the triggers tried one by one. */
  lemma LooksFollowupIff(text: string)
    ensures var t := Normalised(text);
            LooksFollowup(text) <==>
              (exists k :: 0 <= k < |FollowupTriggers| && Contains(t, FollowupTriggers[k])) || |Split(t)| < 3
  {
    ContainsAnyIffSome(Normalised(text), FollowupTriggers);
  }

  /** Empty (or blank) text counts as a follow-up. */
  lemma EmptyIsFollowup(text: string)
    requires Strip(text) == ""
    ensures LooksFollowup(text)
  {
    assert Normalised(text) == [];
  }

  /** Any text holding the letter "o" counts as a follow-up, however long. */
  lemma LetterOIsFollowup(text: string)
    requires Contains(Normalised(text), "o")
    ensures LooksFollowup(text)
  {
    assert FollowupTriggers[4] == "o";
    ContainsAnyIffSome(Normalised(text), FollowupTriggers);
  }

  /** The contents of the user's messages, in order. */
  function UserContents(messages: seq<Memory.ChatMessage>): (contents: seq<string>)
    ensures |contents| <= |messages|
    ensures forall c :: c in contents ==> exists m :: m in messages && m.role == "user" && m.content == c
    ensures forall m :: m in messages && m.role == "user" ==> m.content in contents
  {
    if messages == [] then []
    else
      var last := messages[|messages| - 1];
      var rest := UserContents(messages[..|messages| - 1]);
      assert forall m :: m in messages[..|messages| - 1] ==> m in messages;
      rest + (if last.role == "user" then [last.content] else [])
  }

  /** The contents are taken message by message, in order: those of a
      concatenation are those of the first part, then of the second. */
  lemma {:induction false} UserContentsAppend(a: seq<Memory.ChatMessage>, b: seq<Memory.ChatMessage>)
    ensures UserContents(a + b) == UserContents(a) + UserContents(b)
    decreases |b|
  {
    if b == [] {
      assert a + b == a;
    } else {
      assert (a + b)[..|a + b| - 1] == a + b[..|b| - 1] && (a + b)[|a + b| - 1] == b[|b| - 1];
      UserContentsAppend(a, b[..|b| - 1]);
    }
  }

  /** The number of recent user messages consulted. */
  const RecentUserMessages: int := 8

  /** The earlier recent user messages (all of them when there is only
      one), then the message. */
  function Augmented(recent: seq<string>, message: string): string
    requires recent != []
  {
    var earlier := recent[..|recent| - 1];
    Join(" ", if earlier != [] then earlier else recent) + " " + message
  }

  /** An augmented query starts with the earliest recent user message and
      ends with a space and the message. */
  lemma AugmentedShape(recent: seq<string>, message: string)
    requires recent != []
    ensures var q := Augmented(recent, message);
            && |q| >= |recent[0]| + |message| + 1
            && q[..|recent[0]|] == recent[0]
            && q[|q| - |message|..] == message && q[|q| - |message| - 1] == ' '
            && (|recent| == 1 ==> q == recent[0] + " " + message)
  {
    var earlier := recent[..|recent| - 1];
    var parts := if earlier != [] then earlier else recent;
    assert parts[0] == recent[0];
    JoinStartsWithFirst(" ", parts);
    var j := Join(" ", parts);
    var q := j + " " + message;
    assert q[..|parts[0]|] == j[..|parts[0]|];
    assert q[|q| - |message|..] == message;
  }

  /** The query sent to the search: augmented for a follow-up with some
      history, otherwise the message alone. */
  function AugmentQuery(message: string, history: seq<Memory.ChatMessage>): (q: string)
    ensures !LooksFollowup(message) ==> q == message
    ensures |q| >= |message| && q[|q| - |message|..] == message
  {
    var recent := PyTail(UserContents(history), RecentUserMessages);
    if LooksFollowup(message) && recent != [] then
      AugmentedShape(recent, message);
      Augmented(recent, message)
    else message
  }

  /** The query is changed only for a follow-up with history; a changed
      query starts with the earliest of the last eight user messages and
      ends with a space and the message. */
  lemma AugmentQueryCases(message: string, history: seq<Memory.ChatMessage>)
    ensures var recent := PyTail(UserContents(history), RecentUserMessages);
            var q := AugmentQuery(message, history);
            && (!LooksFollowup(message) || recent == [] ==> q == message)
            && (LooksFollowup(message) && recent != [] ==>
                  |q| >= |message| + 1 && q[|q| - |message|..] == message && q[|q| - |message| - 1] == ' '
                  && q[..|recent[0]|] == recent[0])
  {
    var recent := PyTail(UserContents(history), RecentUserMessages);
    if recent != [] {
      AugmentedShape(recent, message);
    }
  }

  /** In the endpoint the memory is read after the message itself was
      added, so the history ends with it: a follow-up is then always
      augmented, and a follow-up that is the first user message is
      repeated, `message + " " + message`. */
  lemma AugmentAfterAdd(message: string, history: seq<Memory.ChatMessage>)
    requires history != []
    requires history[|history| - 1].role == "user" && history[|history| - 1].content == message
    requires LooksFollowup(message)
    ensures var recent := PyTail(UserContents(history), RecentUserMessages);
            recent != [] && recent[|recent| - 1] == message
            && AugmentQuery(message, history) == Augmented(recent, message)
    ensures UserContents(history[..|history| - 1]) == [] ==> AugmentQuery(message, history) == message + " " + message
  {
    var earlier := history[..|history| - 1];
    assert UserContents(history) == UserContents(earlier) + [message];
    var recent := PyTail(UserContents(history), RecentUserMessages);
    assert recent[|recent| - 1] == message;
    if UserContents(earlier) == [] {
      assert recent == [message];
      AugmentedShape(recent, message);
    }
  }

  lemma {:induction false} JoinStartsWithFirst(sep: string, parts: seq<string>)
    requires parts != []
    ensures |Join(sep, parts)| >= |parts[0]| && Join(sep, parts)[..|parts[0]|] == parts[0]
  {
    if |parts| > 1 {
      var j := Join(sep, parts);
      assert j == parts[0] + sep + Join(sep, parts[1..]);
      assert j[..|parts[0]|] == parts[0];
    }
  }

  // ---------------------------------------------------------------
  // Scraped pages
  // ---------------------------------------------------------------

  /** The label of a page by the trust of its domain. */
  function SourceTypeFor(trust: real): (kind: string)
    ensures kind == "official_site" <==> trust > 0.9
    ensures kind == "reputable_news" <==> 0.8 < trust <= 0.9
    ensures kind == "general_web" <==> trust <= 0.8
  {
    if trust > 0.9 then "official_site" else if trust > 0.8 then "reputable_news" else "general_web"
  }

  /** Official sites (trust 0.95) are labelled so, news sites (0.85) as
      reputable news, and the 0.80 tier falls to general web. */
  lemma SourceTypeOfTiers(url: string)
    ensures Knowledge.DomainTrust(url) == 0.95 ==> SourceTypeFor(Knowledge.DomainTrust(url)) == "official_site"
    ensures Knowledge.DomainTrust(url) == 0.85 ==> SourceTypeFor(Knowledge.DomainTrust(url)) == "reputable_news"
    ensures Knowledge.DomainTrust(url) <= 0.8 ==> SourceTypeFor(Knowledge.DomainTrust(url)) == "general_web"
  {
  }

  /** What a scrape task gave back: text, or an exception. */
  datatype Scraped = Text(text: string) | Failed

  /** The summary entry of an accepted page, scores rounded to two places. */
  datatype SourceEntry = SourceEntry(title: string, url: string, qualityScore: real, domainTrust: real)

  /** The shortest scraped text used, exclusive. */
  const MinScrapedLength: nat := 100

  /** The quality a scraped page must reach. */
  const MinScrapedQuality: real := 0.4

  /** The snippet and summary entry for one page, or nothing when the
      scrape failed, the text is too short, or its quality is too low. */
  function AcceptScraped(result: WebSearch.WebResult, scraped: Scraped, now: Instant)
    : (r: Option<(Knowledge.Snippet, SourceEntry)>)
    ensures r.Some? <==>
              scraped.Text? && |scraped.text| > MinScrapedLength
              && Knowledge.AssessContentQuality(scraped.text, result.title, result.url).qualityScore >= MinScrapedQuality
    ensures r.Some? ==>
              var (snippet, entry) := r.value;
              var trust := Knowledge.DomainTrust(result.url);
              && snippet.content == result.title + ": " + scraped.text
              && snippet.sourceType == SourceTypeFor(trust)
              && snippet.sourceUrl == Some(result.url) && entry.url == result.url
              && snippet.domainTrust == trust && snippet.confidence == trust * 0.8
              && snippet.qualityScore == Knowledge.AssessContentQuality(scraped.text, result.title, result.url).qualityScore
              && MinScrapedQuality <= snippet.qualityScore <= 1.0 && snippet.freshness == 1.0
              && snippet.category == Some("web_content") && snippet.timestamp == now
              && entry.title == result.title
              && entry.qualityScore == Round2(snippet.qualityScore) && entry.domainTrust == Round2(trust)
  {
    match scraped
    case Failed => None
    case Text(content) =>
      if |content| <= MinScrapedLength then None
      else
        var qa := Knowledge.AssessContentQuality(content, result.title, result.url);
        if qa.qualityScore < MinScrapedQuality then None
        else
          var trust := qa.domainTrust;
          Some((Knowledge.Snippet(result.title + ": " + content, SourceTypeFor(trust), Some(result.url),
                                  trust * 0.8, now, 1.0, Some("web_content"), qa.qualityScore, trust),
                SourceEntry(result.title, result.url, Round2(qa.qualityScore), Round2(trust))))
  }

  /** The snippets and entries of the accepted pages, pairing results with
      scrape outcomes position by position up to the shorter list. */
  function AcceptAll(results: seq<WebSearch.WebResult>, scraped: seq<Scraped>, now: Instant)
    : (r: (seq<Knowledge.Snippet>, seq<SourceEntry>))
    ensures |r.0| == |r.1| <= Min(|results|, |scraped|)
    decreases |results|
  {
    if results == [] || scraped == [] then ([], [])
    else
      var n := Min(|results|, |scraped|);
      Extend(AcceptAll(results[..n - 1], scraped[..n - 1], now), AcceptScraped(results[n - 1], scraped[n - 1], now))
  }

  /** The lists with an accepted page appended to both. */
  function Extend(lists: (seq<Knowledge.Snippet>, seq<SourceEntry>), accepted: Option<(Knowledge.Snippet, SourceEntry)>)
    : (seq<Knowledge.Snippet>, seq<SourceEntry>)
  {
    if accepted.Some? then (lists.0 + [accepted.value.0], lists.1 + [accepted.value.1]) else lists
  }

  ghost predicate AllPaired(lists: (seq<Knowledge.Snippet>, seq<SourceEntry>)) {
    |lists.0| == |lists.1| && forall k :: 0 <= k < |lists.0| ==> Paired(lists.0[k], lists.1[k])
  }

  lemma ExtendPaired(lists: (seq<Knowledge.Snippet>, seq<SourceEntry>), accepted: Option<(Knowledge.Snippet, SourceEntry)>)
    requires AllPaired(lists) && (accepted.Some? ==> Paired(accepted.value.0, accepted.value.1))
    ensures AllPaired(Extend(lists, accepted))
  {
    if accepted.Some? {
      var r := Extend(lists, accepted);
      forall k | 0 <= k < |r.0| ensures Paired(r.0[k], r.1[k]) {
        if k < |lists.0| {
          assert r.0[k] == lists.0[k] && r.1[k] == lists.1[k];
        }
      }
    }
  }

  /** A snippet and its summary entry describe the same page; the snippet
      is labelled by its trust, passed the quality floor, and has
      confidence trust times 0.8, at most 0.76. */
  predicate Paired(snippet: Knowledge.Snippet, entry: SourceEntry) {
    && snippet.sourceUrl == Some(entry.url)
    && snippet.sourceType == SourceTypeFor(snippet.domainTrust)
    && snippet.qualityScore >= MinScrapedQuality
    && snippet.confidence == snippet.domainTrust * 0.8 <= 0.76
  }

  lemma AcceptedIsPaired(result: WebSearch.WebResult, scraped: Scraped, now: Instant)
    ensures var r := AcceptScraped(result, scraped, now);
            r.Some? ==> Paired(r.value.0, r.value.1)
  {
  }

  /** Every snippet is paired with the entry at the same position. */
  lemma {:induction false} AcceptAllPaired(results: seq<WebSearch.WebResult>, scraped: seq<Scraped>, now: Instant)
    ensures AllPaired(AcceptAll(results, scraped, now))
    decreases |results|
  {
    if results != [] && scraped != [] {
      var n := Min(|results|, |scraped|);
      AcceptAllPaired(results[..n - 1], scraped[..n - 1], now);
      AcceptedIsPaired(results[n - 1], scraped[n - 1], now);
      ExtendPaired(AcceptAll(results[..n - 1], scraped[..n - 1], now), AcceptScraped(results[n - 1], scraped[n - 1], now));
    }
  }

  /** The outcome of each paired page, up to the shorter list. */
  function Outcomes(results: seq<WebSearch.WebResult>, scraped: seq<Scraped>, now: Instant)
    : (os: seq<Option<(Knowledge.Snippet, SourceEntry)>>)
    ensures |os| == Min(|results|, |scraped|)
    ensures forall k :: 0 <= k < |os| ==> os[k] == AcceptScraped(results[k], scraped[k], now)
  {
    seq(Min(|results|, |scraped|), k requires 0 <= k < Min(|results|, |scraped|) => AcceptScraped(results[k], scraped[k], now))
  }

  /** The lists built from a sequence of outcomes, in order. */
  function Gather(os: seq<Option<(Knowledge.Snippet, SourceEntry)>>): (r: (seq<Knowledge.Snippet>, seq<SourceEntry>))
    ensures |r.0| == |r.1| <= |os|
  {
    if os == [] then ([], []) else Extend(Gather(os[..|os| - 1]), os[|os| - 1])
  }

  /** The scrape loop gathers the outcomes of the paired pages. */
  lemma {:induction false} AcceptAllGathers(results: seq<WebSearch.WebResult>, scraped: seq<Scraped>, now: Instant)
    ensures AcceptAll(results, scraped, now) == Gather(Outcomes(results, scraped, now))
    decreases |results|
  {
    if results != [] && scraped != [] {
      var n := Min(|results|, |scraped|);
      var os := Outcomes(results, scraped, now);
      AcceptAllGathers(results[..n - 1], scraped[..n - 1], now);
      assert Outcomes(results[..n - 1], scraped[..n - 1], now) == os[..n - 1];
    }
  }

  lemma {:induction false} GatherComplete(os: seq<Option<(Knowledge.Snippet, SourceEntry)>>)
    ensures forall k :: 0 <= k < |os| && os[k].Some? ==> os[k].value.0 in Gather(os).0 && os[k].value.1 in Gather(os).1
  {
    if os != [] {
      var init := os[..|os| - 1];
      GatherComplete(init);
      ExtendKeeps(Gather(init), os[|os| - 1]);
      assert forall k :: 0 <= k < |os| - 1 ==> os[k] == init[k];
    }
  }

  lemma {:induction false} GatherOrigin(os: seq<Option<(Knowledge.Snippet, SourceEntry)>>)
    ensures forall i :: 0 <= i < |Gather(os).0| ==>
              exists k :: 0 <= k < |os| && os[k] == Some((Gather(os).0[i], Gather(os).1[i]))
  {
    if os != [] {
      var init := os[..|os| - 1];
      GatherOrigin(init);
      var prev := Gather(init);
      var g := Gather(os);
      assert g == Extend(prev, os[|os| - 1]);
      ExtendKeeps(prev, os[|os| - 1]);
      forall i | 0 <= i < |g.0|
        ensures exists k :: 0 <= k < |os| && os[k] == Some((g.0[i], g.1[i]))
      {
        if i < |prev.0| {
          assert exists k :: 0 <= k < |init| && init[k] == Some((prev.0[i], prev.1[i]));
          var k :| 0 <= k < |init| && init[k] == Some((prev.0[i], prev.1[i]));
          assert os[k] == init[k];
        } else {
          assert os[|os| - 1] == Some((g.0[i], g.1[i]));
        }
      }
    } else {
      assert Gather(os).0 == [];
    }
  }

  /** Every accepted page's snippet and entry are in the output. */
  lemma AcceptAllComplete(results: seq<WebSearch.WebResult>, scraped: seq<Scraped>, now: Instant)
    ensures var r := AcceptAll(results, scraped, now);
            forall k :: 0 <= k < Min(|results|, |scraped|) && AcceptScraped(results[k], scraped[k], now).Some? ==>
              AcceptScraped(results[k], scraped[k], now).value.0 in r.0
              && AcceptScraped(results[k], scraped[k], now).value.1 in r.1
  {
    AcceptAllGathers(results, scraped, now);
    GatherComplete(Outcomes(results, scraped, now));
  }

  /** The snippet and entry at each position come from one accepted page. */
  lemma AcceptAllOrigin(results: seq<WebSearch.WebResult>, scraped: seq<Scraped>, now: Instant)
    ensures var r := AcceptAll(results, scraped, now);
            forall i :: 0 <= i < |r.0| ==>
              exists k :: 0 <= k < Min(|results|, |scraped|) && AcceptScraped(results[k], scraped[k], now) == Some((r.0[i], r.1[i]))
  {
    AcceptAllGathers(results, scraped, now);
    var os := Outcomes(results, scraped, now);
    GatherOrigin(os);
    var r := AcceptAll(results, scraped, now);
    forall i | 0 <= i < |r.0|
      ensures exists k :: 0 <= k < Min(|results|, |scraped|) && AcceptScraped(results[k], scraped[k], now) == Some((r.0[i], r.1[i]))
    {
      var k :| 0 <= k < |os| && os[k] == Some((r.0[i], r.1[i]));
      assert AcceptScraped(results[k], scraped[k], now) == os[k];
    }
  }

  /** Extending keeps the lists' entries and appends the accepted pair. */
  lemma ExtendKeeps(lists: (seq<Knowledge.Snippet>, seq<SourceEntry>), accepted: Option<(Knowledge.Snippet, SourceEntry)>)
    requires |lists.0| == |lists.1|
    ensures var r := Extend(lists, accepted);
            && |r.0| == |r.1|
            && (forall i :: 0 <= i < |lists.0| ==> r.0[i] == lists.0[i] && r.1[i] == lists.1[i])
            && (accepted.Some? ==> accepted.value.0 in r.0 && accepted.value.1 in r.1)
            && (forall x :: x in lists.0 ==> x in r.0) && (forall y :: y in lists.1 ==> y in r.1)
            && (accepted.Some? ==> |r.0| == |lists.0| + 1 && r.0[|lists.0|] == accepted.value.0 && r.1[|lists.0|] == accepted.value.1)
            && (accepted.None? ==> r == lists)
  {
  }

  /** A page whose scrape failed, or whose text has at most 100 characters,
      adds nothing. */
  lemma RejectedPageAddsNothing(results: seq<WebSearch.WebResult>, scraped: seq<Scraped>, now: Instant)
    requires |results| == |scraped| && results != []
    requires scraped[|scraped| - 1].Failed? || |scraped[|scraped| - 1].text| <= MinScrapedLength
    ensures AcceptAll(results, scraped, now) == AcceptAll(results[..|results| - 1], scraped[..|scraped| - 1], now)
  {
  }

  /** The scrape loop of the chat endpoint, appending to both lists. */
  method CollectScraped(results: seq<WebSearch.WebResult>, scraped: seq<Scraped>, now: Instant)
    returns (snippets: seq<Knowledge.Snippet>, entries: seq<SourceEntry>)
    ensures (snippets, entries) == AcceptAll(results, scraped, now)
  {
    snippets, entries := [], [];
    var n := Min(|results|, |scraped|);
    var i := 0;
    while i < n
      invariant 0 <= i <= n
      invariant (snippets, entries) == AcceptAll(results[..i], scraped[..i], now)
    {
      assert results[..i + 1][..i] == results[..i] && scraped[..i + 1][..i] == scraped[..i];
      var accepted := AcceptScraped(results[i], scraped[i], now);
      if accepted.Some? {
        snippets := snippets + [accepted.value.0];
        entries := entries + [accepted.value.1];
      }
      i := i + 1;
    }
    assert (n == |results| ==> results[..n] == results) && (n == |scraped| ==> scraped[..n] == scraped);
    AcceptAllPrefix(results, scraped, now);
  }

  /** Only the paired prefix matters. */
  lemma AcceptAllPrefix(results: seq<WebSearch.WebResult>, scraped: seq<Scraped>, now: Instant)
    ensures var n := Min(|results|, |scraped|);
            AcceptAll(results, scraped, now) == AcceptAll(results[..n], scraped[..n], now)
  {
    var n := Min(|results|, |scraped|);
    if n > 0 {
      assert results[..n][..n - 1] == results[..n - 1] && scraped[..n][..n - 1] == scraped[..n - 1];
    }
  }

  // ---------------------------------------------------------------
  // Confidence history
  // ---------------------------------------------------------------

  /** The number of confidence scores kept. */
  const HistoryLength: nat := 100

  /** The history after `score` is recorded: appended, then cut to the last
      100. */
  function Record(history: seq<real>, score: real): (h: seq<real>)
    ensures h != [] && h[|h| - 1] == score
    ensures |h| == Min(|history| + 1, HistoryLength)
    ensures h == (history + [score])[|history| + 1 - |h|..]
  {
    var appended := history + [score];
    if |appended| > HistoryLength then PyTail(appended, HistoryLength) else appended
  }

  /** Recording twice keeps the last two scores, in order, at the end. */
  lemma RecordTwice(history: seq<real>, a: real, b: real)
    ensures var h := Record(Record(history, a), b);
            |h| >= 2 && h[|h| - 2] == a && h[|h| - 1] == b
  {
    var h1 := Record(history, a);
    var h := Record(h1, b);
    assert h == (h1 + [b])[|h1| + 1 - |h|..];
  }

  /** The running counters of the service; only the confidence history is
      modelled. */
  class Stats {
    var confidenceScores: seq<real>

    constructor()
      ensures confidenceScores == []
    {
      confidenceScores := [];
    }

    method RecordConfidence(score: real)
      modifies this
      ensures confidenceScores == Record(old(confidenceScores), score)
    {
      confidenceScores := confidenceScores + [score];
      if |confidenceScores| > HistoryLength {
        confidenceScores := confidenceScores[|confidenceScores| - HistoryLength..];
      }
    }
  }
}
