/** The evidence-scoring pipeline of the knowledge system
    (backend/services/knowledge.py): domain trust, content quality, key
    phrases, cross-verification, core facts, and the fusion of web,
    knowledge-base and core snippets into a ranked evidence set. */
module Knowledge {
  import opened Common
  import opened Text
  import opened Ranking

  // ---------------------------------------------------------------
  // Trusted domains
  // ---------------------------------------------------------------

  const OfficialDomains: seq<string> := [".gov.tr", ".edu.tr", ".k12.tr", ".tbb.org.tr", ".tbmm.gov.tr"]
  const NewsDomains: seq<string> :=
    ["ntv.com.tr", "haberturk.com", "hurriyet.com.tr", "milliyet.com.tr", "cnnturk.com", "aa.com.tr",
     "trthaber.com", "bloomberght.com", "bbc.com/turkce", "dw.com/tr", "euronews.com/tr"]
  const TechDomains: seq<string> :=
    ["webrazzi.com", "shiftdelete.net", "technopat.net", "chip.com.tr", "donanimhaber.com", "logic.com.tr"]
  const HealthDomains: seq<string> := ["saglik.gov.tr", "medicalpark.com.tr", "acibadem.com.tr", "memorial.com.tr"]
  const SportsDomains: seq<string> :=
    ["ntvspor.net", "aspor.com.tr", "fanatik.com.tr", "tff.org", "transfermarkt.com.tr", "beinsports.com.tr",
     "eurosport.com.tr"]
  const SpamDomains: seq<string> := ["click.com", "spam.com", "fake.com"]

  /** The trust of a URL that matches no tier, and of an empty URL. */
  const DefaultTrust: real := 0.5

  /** The trust score of a URL: the tiers are searched in the order
      official, news, tech/health/sports, spam, by case-insensitive
      substring, and the first tier with a match decides. */
  function DomainTrust(url: string): (r: real)
    ensures url == "" ==> r == DefaultTrust
    ensures r == 0.95 || r == 0.85 || r == 0.80 || r == 0.1 || r == 0.5
    ensures url != "" ==> (r == 0.95 <==> ContainsAny(Lower(url), OfficialDomains))
  {
    if url == "" then DefaultTrust
    else
      var u := Lower(url);
      if ContainsAny(u, OfficialDomains) then 0.95
      else if ContainsAny(u, NewsDomains) then 0.85
      else if ContainsAny(u, TechDomains) || ContainsAny(u, HealthDomains) || ContainsAny(u, SportsDomains) then 0.80
      else if ContainsAny(u, SpamDomains) then 0.1
      else DefaultTrust
  }

  /** One trust tier of the reference definition below. */
  datatype Tier = Tier(domains: seq<string>, score: real)

  /** The tiers as an ordered table. */
  const TrustTiers: seq<Tier> :=
    [Tier(OfficialDomains, 0.95), Tier(NewsDomains, 0.85),
     Tier(TechDomains + HealthDomains + SportsDomains, 0.80), Tier(SpamDomains, 0.1)]

  /** Reference definition of a tiered lookup: the score of the first tier,
      from index `i` on, with a domain contained in `u`. */
  function FirstMatch(tiers: seq<Tier>, u: string, i: nat): (r: real)
    requires i <= |tiers|
    ensures (exists k :: i <= k < |tiers| && ContainsAny(u, tiers[k].domains) && r == tiers[k].score
               && forall j :: i <= j < k ==> !ContainsAny(u, tiers[j].domains))
            || ((forall k :: i <= k < |tiers| ==> !ContainsAny(u, tiers[k].domains)) && r == DefaultTrust)
    decreases |tiers| - i
  {
    if i == |tiers| then DefaultTrust
    else if ContainsAny(u, tiers[i].domains) then tiers[i].score
    else FirstMatch(tiers, u, i + 1)
  }

  /** `DomainTrust` is the first-match lookup over the ordered tier table. */
  lemma DomainTrustIsFirstMatch(url: string)
    requires url != ""
    ensures DomainTrust(url) == FirstMatch(TrustTiers, Lower(url), 0)
  {
    var u := Lower(url);
    ContainsAnyAppend(u, TechDomains, HealthDomains);
    ContainsAnyAppend(u, TechDomains + HealthDomains, SportsDomains);
    var t := TrustTiers;
    assert FirstMatch(t, u, 4) == DefaultTrust;
    assert FirstMatch(t, u, 3) == if ContainsAny(u, SpamDomains) then 0.1 else DefaultTrust;
    assert FirstMatch(t, u, 2) == if ContainsAny(u, TechDomains + HealthDomains + SportsDomains) then 0.80 else FirstMatch(t, u, 3);
    assert FirstMatch(t, u, 1) == if ContainsAny(u, NewsDomains) then 0.85 else FirstMatch(t, u, 2);
    assert FirstMatch(t, u, 0) == if ContainsAny(u, OfficialDomains) then 0.95 else FirstMatch(t, u, 1);
  }

  /** The health tier's `saglik.gov.tr` also contains `.gov.tr`, so the
      official tier, tried first, always claims it: such URLs score 0.95,
      never the health tier's 0.80. */
  lemma HealthMinistryIsOfficial(url: string)
    requires Contains(Lower(url), "saglik.gov.tr")
    ensures DomainTrust(url) == 0.95
  {
    assert OccursAt("saglik.gov.tr", ".gov.tr", 6);
    ContainsIffOccurs("saglik.gov.tr", ".gov.tr");
    ContainsTransitive(Lower(url), "saglik.gov.tr", ".gov.tr");
    assert OfficialDomains[0] == ".gov.tr";
  }

  // ---------------------------------------------------------------
  // Content quality
  // ---------------------------------------------------------------

  datatype QualityAssessment = QualityAssessment(
    qualityScore: real, domainTrust: real, contentLength: nat, sentenceCount: nat)

  /** The length adjustment, a single if/elif chain: the `< 20` arm comes
      after `< 50` and is never taken. */
  function LengthAdjustment(length: nat): (r: real)
    ensures -0.3 <= r <= 0.3
    ensures r < 0.0 <==> length < 50
    ensures r == 0.0 <==> 50 <= length <= 100
    ensures length < 50 ==> r == -0.3
    ensures 100 < length <= 200 ==> r == 0.1
    ensures 200 < length <= 500 ==> r == 0.2
    ensures length > 500 <==> r == 0.3
  {
    if length > 500 then 0.3
    else if length > 200 then 0.2
    else if length > 100 then 0.1
    else if length < 50 then -0.3
    else if length < 20 then -0.5
    else 0.0
  }

  /** `content.count('.') + content.count('!') + content.count('?')`. */
  function SentenceCount(content: string): (n: nat)
    ensures n == multiset(content)['.'] + multiset(content)['!'] + multiset(content)['?']
  {
    CountChar(content, '.') + CountChar(content, '!') + CountChar(content, '?')
  }

  function ToSet(words: seq<string>): set<string> {
    set w | w in words
  }

  /** The lexical-diversity adjustment, applied only to more than ten words. */
  function DiversityAdjustment(words: seq<string>): (r: real)
    ensures |words| <= 10 ==> r == 0.0
    ensures r == -0.3 || r == 0.0 || r == 0.1
    ensures |words| > 10 ==> (r == -0.3 <==> (|ToSet(words)| as real / |words| as real) < 0.4)
    ensures |words| > 10 ==> (r == 0.1 <==> (|ToSet(words)| as real / |words| as real) > 0.8)
  {
    if |words| > 10 then
      var ratio := |ToSet(words)| as real / |words| as real;
      if ratio < 0.4 then -0.3 else if ratio > 0.8 then 0.1 else 0.0
    else 0.0
  }

  const StructureMarkers: seq<string> := ["•", "- ", "1.", "2.", "3."]

  /** The first five lower-cased title words share a word with the first
      twenty lower-cased content words. */
  predicate SharesLeadingWord(title: string, content: string) {
    ToSet(PyTake(Split(Lower(title)), 5)) * ToSet(PyTake(Split(Lower(content)), 20)) != {}
  }

  function TitleBonus(title: string, content: string): (r: real)
    ensures r == 0.0 || r == 0.1
    ensures r == 0.1 <==> title != "" && content != "" && SharesLeadingWord(title, content)
  {
    if title != "" && content != "" && SharesLeadingWord(title, content) then 0.1 else 0.0
  }

  /** The accumulated score before clamping: 0.5, raised or lowered by
      each signal, with at least 0.02 and at most 0.19 from the domain. */
  function RawScore(content: string, title: string, url: string): (r: real)
    ensures -0.08 <= r <= 1.59
    ensures r - DomainTrust(url) * 0.2 - TitleBonus(title, content) <= 1.3
  {
    0.5
    + LengthAdjustment(|content|)
    + (if SentenceCount(content) > 3 then 0.2 else 0.0)
    + (if CountOccurrences(content, "\n\n") > 1 then 0.1 else 0.0)
    + DiversityAdjustment(Split(content))
    + (if ContainsAny(content, StructureMarkers) then 0.1 else 0.0)
    + DomainTrust(url) * 0.2
    + TitleBonus(title, content)
  }

  /** `max(0.1, min(1.0, score))`. */
  function Clamp(score: real): (r: real)
    ensures 0.1 <= r <= 1.0
    ensures 0.1 <= score <= 1.0 ==> r == score
    ensures score > 1.0 ==> r == 1.0
    ensures score < 0.1 ==> r == 0.1
  {
    MaxReal(0.1, MinReal(1.0, score))
  }

  /** The quality assessment of one snippet. */
  function AssessContentQuality(content: string, title: string, url: string): (a: QualityAssessment)
    ensures 0.1 <= a.qualityScore <= 1.0
    ensures a.domainTrust == DomainTrust(url)
    ensures a.contentLength == |content|
    ensures a.sentenceCount == multiset(content)['.'] + multiset(content)['!'] + multiset(content)['?']
  {
    QualityAssessment(Clamp(RawScore(content, title, url)), DomainTrust(url), |content|, SentenceCount(content))
  }

  /** A more trusted URL never lowers the quality score of the same text. */
  lemma QualityMonotoneInTrust(content: string, title: string, url1: string, url2: string)
    requires DomainTrust(url1) <= DomainTrust(url2)
    ensures AssessContentQuality(content, title, url1).qualityScore
            <= AssessContentQuality(content, title, url2).qualityScore
  {
  }

  /** Without a title there is no title bonus: a title can only raise the score. */
  lemma TitleOnlyRaises(content: string, title: string, url: string)
    ensures AssessContentQuality(content, "", url).qualityScore
            <= AssessContentQuality(content, title, url).qualityScore
  {
  }

  // ---------------------------------------------------------------
  // Key phrases
  // ---------------------------------------------------------------

  const StopWords: seq<string> := ["nedir", "nasıl", "nerede", "ne", "bir", "ve", "ile", "için"]

  predicate IsKeyWord(w: string) {
    w !in StopWords && |w| > 2
  }

  /** `[w for w in words if w not in stop_words and len(w) > 2]`. */
  function KeepKeyWords(words: seq<string>): (r: seq<string>)
    ensures |r| <= |words|
    ensures forall w :: w in r <==> w in words && IsKeyWord(w)
  {
    if words == [] then []
    else (if IsKeyWord(words[0]) then [words[0]] else []) + KeepKeyWords(words[1..])
  }

  /** A word occurs in the result as often as in the input when it is a
      key word, and not at all otherwise. */
  lemma {:induction false} KeepKeyWordsCount(words: seq<string>)
    ensures forall w :: multiset(KeepKeyWords(words))[w] == if IsKeyWord(w) then multiset(words)[w] else 0
    decreases |words|
  {
    if words != [] {
      assert words == [words[0]] + words[1..];
      KeepKeyWordsCount(words[1..]);
    }
  }

  /** The filter works word by word, so it keeps the input order: filtering
      a concatenation concatenates the filtered parts. */
  lemma {:induction false} KeepKeyWordsAppend(a: seq<string>, b: seq<string>)
    ensures KeepKeyWords(a + b) == KeepKeyWords(a) + KeepKeyWords(b)
    decreases |a|
  {
    if a == [] {
      assert a + b == b;
    } else {
      assert (a + b)[0] == a[0] && (a + b)[1..] == a[1..] + b;
      KeepKeyWordsAppend(a[1..], b);
    }
  }

  /** The key words of a text: its lower-cased words that survive the filter. */
  function KeyWords(text: string): seq<string> {
    KeepKeyWords(Split(Lower(text)))
  }

  /** The adjacent pairs of `ws`, joined by a space. */
  function Bigrams(ws: seq<string>): (r: seq<string>)
    ensures |r| == Max(0, |ws| - 1)
    ensures forall i :: 0 <= i < |r| ==> r[i] == ws[i] + " " + ws[i + 1]
  {
    seq(Max(0, |ws| - 1), i requires 0 <= i < Max(0, |ws| - 1) => ws[i] + " " + ws[i + 1])
  }

  /** The key phrases: the bigrams first, then the key words themselves. */
  function KeyPhrases(text: string): (r: seq<string>)
    ensures var ws := KeyWords(text);
            && |r| == Max(0, |ws| - 1) + |ws|
            && (forall i :: 0 <= i < |ws| - 1 ==> r[i] == ws[i] + " " + ws[i + 1])
            && r[Max(0, |ws| - 1)..] == ws
  {
    Bigrams(KeyWords(text)) + KeyWords(text)
  }

  /** `extract_key_phrases`. */
  method ExtractKeyPhrases(text: string) returns (phrases: seq<string>)
    ensures phrases == KeyPhrases(text)
  {
    var keyWords := KeepKeyWords(Split(Lower(text)));
    var bigrams: seq<string> := [];
    var i := 0;
    while i < |keyWords| - 1
      invariant 0 <= i <= Max(0, |keyWords| - 1)
      invariant |bigrams| == i
      invariant forall j :: 0 <= j < i ==> bigrams[j] == keyWords[j] + " " + keyWords[j + 1]
    {
      bigrams := bigrams + [keyWords[i] + " " + keyWords[i + 1]];
      i := i + 1;
    }
    phrases := bigrams + keyWords;
  }

  /** With `k` key words there are `k - 1` bigrams followed by the `k`
      words, so `2k - 1` phrases (none when `k == 0`). */
  lemma KeyPhrasesShape(text: string)
    ensures var k := |KeyWords(text)|;
            |KeyPhrases(text)| == (if k == 0 then 0 else 2 * k - 1)
            && KeyPhrases(text)[Max(0, k - 1)..] == KeyWords(text)
    ensures forall w :: w in KeyWords(text) ==> w !in StopWords && |w| > 2
  {
  }

  /** The (at most) three phrases cross-verification evaluates. */
  lemma FirstThreePhrases(text: string)
    ensures var ws := KeyWords(text);
            var p := PyTake(KeyPhrases(text), 3);
            (|ws| == 0 ==> p == [])
            && (|ws| == 1 ==> p == [ws[0]])
            && (|ws| == 2 ==> p == [ws[0] + " " + ws[1], ws[0], ws[1]])
            && (|ws| == 3 ==> p == [ws[0] + " " + ws[1], ws[1] + " " + ws[2], ws[0]])
            && (|ws| >= 4 ==> p == [ws[0] + " " + ws[1], ws[1] + " " + ws[2], ws[2] + " " + ws[3]])
  {
    var ws := KeyWords(text);
    var p := PyTake(KeyPhrases(text), 3);
    if |ws| == 2 {
      assert p == [KeyPhrases(text)[0], KeyPhrases(text)[1], KeyPhrases(text)[2]];
    } else if |ws| == 3 {
      assert p == [KeyPhrases(text)[0], KeyPhrases(text)[1], KeyPhrases(text)[2]];
    } else if |ws| >= 4 {
      assert p == [KeyPhrases(text)[0], KeyPhrases(text)[1], KeyPhrases(text)[2]];
    }
  }

  // ---------------------------------------------------------------
  // Snippets
  // ---------------------------------------------------------------

  /** One piece of evidence. `sourceType` is a free string; unmapped types
      fall back to the default weight. */
  datatype Snippet = Snippet(
    content: string,
    sourceType: string,
    sourceUrl: Option<string>,
    confidence: real,
    timestamp: Instant,
    freshness: real,
    category: Option<string>,
    qualityScore: real,
    domainTrust: real)

  function ConfidenceOf(s: Snippet): real { s.confidence }

  /** `snippet.source_url or ""`. */
  function UrlOrEmpty(s: Snippet): string {
    match s.sourceUrl
    case Some(u) => u
    case None => ""
  }

  // ---------------------------------------------------------------
  // Cross-verification
  // ---------------------------------------------------------------

  datatype SourceRef = SourceRef(source: Option<string>, confidence: real, contentPreview: string)

  /** The verdict on one key phrase; the supporting and conflicting counts
      are the lengths of the two lists. */
  datatype PhraseVerdict = PhraseVerdict(keyPhrase: string, supporting: seq<SourceRef>, conflicting: seq<SourceRef>) {
    predicate Agrees() { |supporting| > |conflicting| }
  }

  /** The result of cross-verification: too few sources to verify
      (`verified` false, consensus 0.0), or the per-phrase verdicts. */
  datatype CrossVerification =
    | TooFewSources
    | Checked(verified: bool, consensus: real, results: seq<PhraseVerdict>, totalSources: nat)

  function RefOf(s: Snippet): SourceRef {
    SourceRef(s.sourceUrl, s.confidence, PyTake(s.content, 100))
  }

  function NegationPatterns(phrase: string): seq<string> {
    ["değil " + phrase, "yanlış " + phrase, "olmamış " + phrase, "iptal " + phrase]
  }

  /** The snippet's lower-cased content contains the lower-cased phrase. */
  predicate Supports(s: Snippet, phrase: string) {
    Contains(Lower(s.content), Lower(phrase))
  }

  /** The snippet does not support the phrase but contains one of its
      negation patterns. */
  predicate Disputes(s: Snippet, phrase: string) {
    !Supports(s, phrase) && ContainsAny(Lower(s.content), NegationPatterns(Lower(phrase)))
  }

  function Supporters(snippets: seq<Snippet>, phrase: string): seq<SourceRef> {
    if snippets == [] then []
    else
      var last := snippets[|snippets| - 1];
      Supporters(snippets[..|snippets| - 1], phrase) + (if Supports(last, phrase) then [RefOf(last)] else [])
  }

  function Disputers(snippets: seq<Snippet>, phrase: string): seq<SourceRef> {
    if snippets == [] then []
    else
      var last := snippets[|snippets| - 1];
      Disputers(snippets[..|snippets| - 1], phrase) + (if Disputes(last, phrase) then [RefOf(last)] else [])
  }

  /** A snippet is counted as supporting or as conflicting, never both, so
      the two counts together never exceed the number of snippets. */
  lemma {:induction false} SupportAndConflictDisjoint(snippets: seq<Snippet>, phrase: string)
    ensures |Supporters(snippets, phrase)| + |Disputers(snippets, phrase)| <= |snippets|
  {
    if snippets != [] {
      SupportAndConflictDisjoint(snippets[..|snippets| - 1], phrase);
    }
  }

  /** Each negation pattern ends with the phrase, so content containing a
      pattern contains the phrase and is counted as support first: the
      negation branch never fires. */
  lemma NeverDisputes(s: Snippet, phrase: string)
    ensures !Disputes(s, phrase)
  {
    var content := Lower(s.content);
    var p := Lower(phrase);
    var pats := NegationPatterns(p);
    ContainsAnyIffSome(content, pats);
    if ContainsAny(content, pats) {
      var k :| 0 <= k < |pats| && Contains(content, pats[k]);
      var prefixes := ["değil ", "yanlış ", "olmamış ", "iptal "];
      assert pats[k] == prefixes[k] + p;
      ContainsSuffix(prefixes[k], p);
      ContainsTransitive(content, pats[k], p);
    }
  }

  /** No phrase ever has a conflicting source. */
  lemma {:induction false} NoDisputers(snippets: seq<Snippet>, phrase: string)
    ensures Disputers(snippets, phrase) == []
  {
    if snippets != [] {
      NoDisputers(snippets[..|snippets| - 1], phrase);
      NeverDisputes(snippets[|snippets| - 1], phrase);
    }
  }

  /** The supporting sources are the references of exactly the snippets
      whose content contains the phrase. */
  lemma {:induction false} SupportersComplete(snippets: seq<Snippet>, phrase: string)
    ensures forall s :: s in snippets && Supports(s, phrase) ==> RefOf(s) in Supporters(snippets, phrase)
    ensures forall x :: x in Supporters(snippets, phrase) ==>
              exists s :: s in snippets && Supports(s, phrase) && x == RefOf(s)
  {
    if snippets != [] {
      var init := snippets[..|snippets| - 1];
      var last := snippets[|snippets| - 1];
      SupportersComplete(init, phrase);
      assert snippets == init + [last];
      var r := Supporters(snippets, phrase);
      assert r == Supporters(init, phrase) + (if Supports(last, phrase) then [RefOf(last)] else []);
      forall x | x in r
        ensures exists s :: s in snippets && Supports(s, phrase) && x == RefOf(s)
      {
        if x in Supporters(init, phrase) {
          var s :| s in init && Supports(s, phrase) && x == RefOf(s);
          assert s in snippets;
        } else {
          assert last in snippets && Supports(last, phrase) && x == RefOf(last);
        }
      }
    }
  }

  /** A phrase has no conflicting source, and it agrees exactly when some
      snippet contains it. */
  lemma VerdictAgrees(snippets: seq<Snippet>, phrase: string)
    ensures Verdict(snippets, phrase).conflicting == []
    ensures Verdict(snippets, phrase).Agrees() <==> exists s :: s in snippets && Supports(s, phrase)
  {
    NoDisputers(snippets, phrase);
    SupportersComplete(snippets, phrase);
    var sup := Supporters(snippets, phrase);
    if sup != [] {
      assert sup[0] in sup;
    }
  }

  function Verdict(snippets: seq<Snippet>, phrase: string): PhraseVerdict {
    PhraseVerdict(phrase, Supporters(snippets, phrase), Disputers(snippets, phrase))
  }

  /** The number of verdicts in which support outweighs conflict. */
  function AgreeingCount(vs: seq<PhraseVerdict>): (n: nat)
    ensures n <= |vs|
  {
    if vs == [] then 0
    else AgreeingCount(vs[..|vs| - 1]) + (if vs[|vs| - 1].Agrees() then 1 else 0)
  }

  /** The unrounded consensus: the fraction of agreeing verdicts. */
  function Consensus(vs: seq<PhraseVerdict>): (c: real)
    ensures 0.0 <= c <= 1.0
    ensures c > 0.5 <==> 2 * AgreeingCount(vs) > |vs|
  {
    if |vs| == 0 then 0.0
    else
      RatioAboveHalf(AgreeingCount(vs), |vs|);
      AgreeingCount(vs) as real / |vs| as real
  }

  lemma RatioAboveHalf(a: nat, n: nat)
    requires a <= n && 0 < n
    ensures 0.0 <= a as real / n as real <= 1.0
    ensures a as real / n as real > 0.5 <==> 2 * a > n
  {
    var nr := n as real;
    assert (0.5 * nr) / nr == 0.5;
    DivMono(0.0, a as real, nr);
    DivMono(a as real, nr, nr);
    if 2 * a > n {
      DivStrict(0.5 * nr, a as real, nr);
    } else {
      DivMono(a as real, 0.5 * nr, nr);
    }
  }

  /** Cross-verification of the snippets against the query's first three
      key phrases. */
  function CrossVerify(snippets: seq<Snippet>, query: string): (r: CrossVerification)
    ensures r.TooFewSources? <==> |snippets| < 2
    ensures r.Checked? ==> r.totalSources == |snippets|
    ensures r.Checked? ==> |r.results| == Min(3, |KeyPhrases(query)|)
    ensures r.Checked? ==> 0.0 <= r.consensus <= 1.0
    ensures r.Checked? ==> forall k :: 0 <= k < |r.results| ==>
              r.results[k] == Verdict(snippets, PyTake(KeyPhrases(query), 3)[k])
    ensures r.Checked? ==> r.consensus == Round2(Consensus(r.results))
    ensures r.Checked? ==> (r.verified <==> 2 * AgreeingCount(r.results) > |r.results|)
  {
    if |snippets| < 2 then TooFewSources
    else
      var phrases := PyTake(KeyPhrases(query), 3);
      var results := seq(|phrases|, k requires 0 <= k < |phrases| => Verdict(snippets, phrases[k]));
      var c := Consensus(results);
      Checked(c > 0.5, Round2(c), results, |snippets|)
  }

  /** The inner loop of `cross_verify_information`: one pass over the
      snippets for one phrase. */
  method JudgePhrase(snippets: seq<Snippet>, phrase: string) returns (v: PhraseVerdict)
    ensures v == Verdict(snippets, phrase)
  {
    var phraseLower := Lower(phrase);
    var supporting: seq<SourceRef> := [];
    var conflicting: seq<SourceRef> := [];
    var j := 0;
    while j < |snippets|
      invariant 0 <= j <= |snippets|
      invariant supporting == Supporters(snippets[..j], phrase)
      invariant conflicting == Disputers(snippets[..j], phrase)
    {
      var contentLower := Lower(snippets[j].content);
      assert snippets[..j + 1][..j] == snippets[..j];
      if Contains(contentLower, phraseLower) {
        supporting := supporting + [RefOf(snippets[j])];
      } else if ContainsAny(contentLower, NegationPatterns(phraseLower)) {
        conflicting := conflicting + [RefOf(snippets[j])];
      }
      j := j + 1;
    }
    assert snippets[..|snippets|] == snippets;
    v := PhraseVerdict(phrase, supporting, conflicting);
  }

  /** `cross_verify_information`. */
  method CrossVerifyInformation(snippets: seq<Snippet>, query: string) returns (r: CrossVerification)
    ensures r == CrossVerify(snippets, query)
  {
    if |snippets| < 2 {
      return TooFewSources;
    }
    var keyPhrases := ExtractKeyPhrases(query);
    var phrases := PyTake(keyPhrases, 3);
    var results := JudgePhrases(snippets, phrases);
    var agreeing := CountAgreeing(results);
    var consensus := if |results| == 0 then 0.0 else agreeing as real / |results| as real;
    assert consensus == Consensus(results);
    r := Checked(consensus > 0.5, Round2(consensus), results, |snippets|);
  }

  /** The phrase loop: one verdict per phrase, in order. */
  method JudgePhrases(snippets: seq<Snippet>, phrases: seq<string>) returns (results: seq<PhraseVerdict>)
    ensures results == seq(|phrases|, k requires 0 <= k < |phrases| => Verdict(snippets, phrases[k]))
  {
    results := [];
    var i := 0;
    while i < |phrases|
      invariant 0 <= i <= |phrases|
      invariant |results| == i
      invariant forall k :: 0 <= k < i ==> results[k] == Verdict(snippets, phrases[k])
    {
      var verdict := JudgePhrase(snippets, phrases[i]);
      results := results + [verdict];
      i := i + 1;
    }
  }

  /** The counting loop over the verdicts. */
  method CountAgreeing(results: seq<PhraseVerdict>) returns (agreeing: nat)
    ensures agreeing == AgreeingCount(results)
  {
    agreeing := 0;
    var k := 0;
    while k < |results|
      invariant 0 <= k <= |results|
      invariant agreeing == AgreeingCount(results[..k])
    {
      assert results[..k + 1][..k] == results[..k];
      if |results[k].supporting| > |results[k].conflicting| {
        agreeing := agreeing + 1;
      }
      k := k + 1;
    }
    assert results[..|results|] == results;
  }

  // ---------------------------------------------------------------
  // Core knowledge
  // ---------------------------------------------------------------

  datatype CoreFact = CoreFact(fact: string, category: string, lastVerified: Instant, confidence: real)

  /** The static fact table, in load order, verified at `loadedAt`. */
  function CoreFacts(loadedAt: Instant): (facts: seq<CoreFact>)
    ensures |facts| == 4
  {
    [CoreFact("Türkiye'nin başkenti Ankara'dır", "coğrafya", loadedAt, 0.95),
     CoreFact("İstanbul Türkiye'nin en kalabalık şehridir", "coğrafya", loadedAt, 0.90),
     CoreFact("Python popüler bir programlama dilidir", "teknoloji", loadedAt, 0.85),
     CoreFact("Yapay zeka makine öğrenimi ve derin öğrenme tekniklerini kullanır", "teknoloji", loadedAt, 0.80)]
  }

  /** A fact matches when its lower-cased text contains the whole
      lower-cased query or any one of its words, as a substring. */
  predicate FactMatches(query: string, f: CoreFact) {
    var q := Lower(query);
    Contains(Lower(f.fact), q) || exists w | w in Split(q) :: Contains(Lower(f.fact), w)
  }

  function MatchingFacts(query: string, facts: seq<CoreFact>): (r: seq<CoreFact>)
    ensures |r| <= |facts|
    ensures forall f :: f in r <==> f in facts && FactMatches(query, f)
  {
    if facts == [] then []
    else (if FactMatches(query, facts[0]) then [facts[0]] else []) + MatchingFacts(query, facts[1..])
  }

  /** A fact occurs among the matches as often as in the table when it
      matches, and not at all otherwise. */
  lemma {:induction false} MatchingFactsCount(query: string, facts: seq<CoreFact>)
    ensures forall f :: multiset(MatchingFacts(query, facts))[f] == if FactMatches(query, f) then multiset(facts)[f] else 0
    decreases |facts|
  {
    if facts != [] {
      assert facts == [facts[0]] + facts[1..];
      MatchingFactsCount(query, facts[1..]);
    }
  }

  /** Matching keeps table order: the matches of a concatenation are the
      matches of the first part, then those of the second. */
  lemma {:induction false} MatchingFactsAppend(query: string, a: seq<CoreFact>, b: seq<CoreFact>)
    ensures MatchingFacts(query, a + b) == MatchingFacts(query, a) + MatchingFacts(query, b)
    decreases |a|
  {
    if a == [] {
      assert a + b == b;
    } else {
      assert (a + b)[0] == a[0] && (a + b)[1..] == a[1..] + b;
      MatchingFactsAppend(query, a[1..], b);
    }
  }

  /** `get_relevant_core_knowledge`: the first three matching facts, in
      table order. */
  function RelevantCoreFacts(query: string, facts: seq<CoreFact>): (r: seq<CoreFact>)
    ensures |r| <= 3
    ensures |r| <= |MatchingFacts(query, facts)| && r == MatchingFacts(query, facts)[..|r|]
    ensures forall f :: f in r ==> f in facts && FactMatches(query, f)
    ensures |r| < 3 ==> forall f :: f in facts && FactMatches(query, f) ==> f in r
  {
    PyTake(MatchingFacts(query, facts), 3)
  }

  /** Every fact contains the empty query, so an empty query yields the
      first three facts of the table. */
  lemma {:induction false} EmptyQueryMatchesAll(facts: seq<CoreFact>)
    ensures MatchingFacts("", facts) == facts
    ensures RelevantCoreFacts("", facts) == facts[..Min(3, |facts|)]
  {
    if facts != [] {
      ContainsSelf(Lower(facts[0].fact));
      EmptyQueryMatchesAll(facts[1..]);
      assert facts == [facts[0]] + facts[1..];
    }
  }

  /** A core fact as a snippet: its text, category, verification time and
      confidence, typed `core_knowledge`, with no URL. */
  function CoreSnippet(f: CoreFact): (s: Snippet)
    ensures s.content == f.fact && s.sourceType == "core_knowledge" && s.sourceUrl == None
    ensures s.confidence == f.confidence && s.timestamp == f.lastVerified && s.category == Some(f.category)
    ensures s.freshness == 1.0 && s.qualityScore == 0.5 && s.domainTrust == 0.5
  {
    Snippet(f.fact, "core_knowledge", None, f.confidence, f.lastVerified, 1.0, Some(f.category), 0.5, 0.5)
  }

  function CoreSnippets(facts: seq<CoreFact>): (r: seq<Snippet>)
    ensures |r| == |facts|
    ensures forall i :: 0 <= i < |r| ==> r[i] == CoreSnippet(facts[i])
  {
    seq(|facts|, i requires 0 <= i < |facts| => CoreSnippet(facts[i]))
  }

  // ---------------------------------------------------------------
  // Confidence fusion
  // ---------------------------------------------------------------

  const SourceWeights: map<string, real> :=
    map["official_site" := 0.95, "reputable_news" := 0.90, "general_web" := 0.75, "user_uploaded" := 0.70,
        "internal_kb" := 0.85, "core_knowledge" := 0.80, "unknown" := 0.50]

  /** `source_weights.get(source_type, 0.5)`. */
  function SourceWeight(sourceType: string): (w: real)
    ensures 0.5 <= w <= 0.95
    ensures sourceType !in SourceWeights ==> w == 0.5
  {
    if sourceType in SourceWeights then SourceWeights[sourceType] else 0.5
  }

  function HoursSince(now: Instant, t: Instant): real {
    (now - t) / 3600.0
  }

  /** Linear decay over 30 days, floored at 0.3 and not capped above: a
      timestamp in the future gives a freshness above 1. */
  function Freshness(now: Instant, timestamp: Instant): (f: real)
    ensures f >= 0.3
    ensures HoursSince(now, timestamp) >= 504.0 <==> f == 0.3
    ensures now == timestamp ==> f == 1.0
    ensures timestamp <= now ==> f <= 1.0
    ensures timestamp > now ==> f > 1.0
  {
    MaxReal(0.3, 1.0 - HoursSince(now, timestamp) / (30.0 * 24.0))
  }

  /** The product of the four factors, before rounding. */
  function Fused(weight: real, freshness: real, quality: real, trust: real): real {
    weight * freshness * quality * trust
  }

  /** One pass of the fusion loop over a snippet: freshness, quality (with
      the URL passed as the title too), trust and confidence recomputed. */
  function Rescore(s: Snippet, now: Instant): (r: Snippet)
    ensures r.content == s.content && r.sourceType == s.sourceType && r.sourceUrl == s.sourceUrl
    ensures r.timestamp == s.timestamp && r.category == s.category
    ensures r.freshness == Freshness(now, s.timestamp)
    ensures r.qualityScore == AssessContentQuality(s.content, UrlOrEmpty(s), UrlOrEmpty(s)).qualityScore
    ensures r.domainTrust == DomainTrust(UrlOrEmpty(s))
    ensures r.confidence == Round2(Fused(SourceWeight(s.sourceType), r.freshness, r.qualityScore, r.domainTrust))
  {
    var url := UrlOrEmpty(s);
    var qa := AssessContentQuality(s.content, url, url);
    var freshness := Freshness(now, s.timestamp);
    Snippet(s.content, s.sourceType, s.sourceUrl,
            Round2(Fused(SourceWeight(s.sourceType), freshness, qa.qualityScore, qa.domainTrust)),
            s.timestamp, freshness, s.category, qa.qualityScore, qa.domainTrust)
  }

  lemma UnitProduct(a: real, b: real)
    requires 0.0 <= a <= 1.0 && 0.0 <= b <= 1.0
    ensures 0.0 <= a * b <= a
  {
  }

  /** Four factors in [0, 1] fuse to a value in [0, 1]. */
  lemma FusedInUnitInterval(w: real, f: real, q: real, t: real)
    requires 0.0 <= w <= 1.0 && 0.0 <= f <= 1.0 && 0.0 <= q <= 1.0 && 0.0 <= t <= 1.0
    ensures 0.0 <= Fused(w, f, q, t) <= 1.0
  {
    UnitProduct(w, f);
    UnitProduct(w * f, q);
    UnitProduct(w * f * q, t);
  }

  /** For a snippet not dated in the future, the fused confidence lies in
      [0, 1]. */
  lemma ConfidenceInUnitInterval(s: Snippet, now: Instant)
    requires s.timestamp <= now
    ensures 0.0 <= Rescore(s, now).confidence <= 1.0
  {
    var r := Rescore(s, now);
    FusedInUnitInterval(SourceWeight(s.sourceType), r.freshness, r.qualityScore, r.domainTrust);
  }

  function RescoreAll(snippets: seq<Snippet>, now: Instant): (r: seq<Snippet>)
    ensures |r| == |snippets|
    ensures forall i :: 0 <= i < |r| ==> r[i] == Rescore(snippets[i], now)
  {
    seq(|snippets|, i requires 0 <= i < |snippets| => Rescore(snippets[i], now))
  }

  // ---------------------------------------------------------------
  // Evaluation
  // ---------------------------------------------------------------

  /** A detected contradiction between snippets. */
  datatype Conflict = Conflict(description: string)

  /** The conflict-detection hook: it reports no conflicts. */
  function DetectConflicts(snippets: seq<Snippet>): (r: seq<Conflict>)
    ensures r == []
  {
    []
  }

  datatype Evaluation = Evaluation(
    snippets: seq<Snippet>,
    hasConflicts: bool,
    conflicts: seq<Conflict>,
    highestConfidence: real,
    coreKnowledgeUsed: nat,
    crossVerification: CrossVerification)

  /** The snippets the evaluation fuses: web, then knowledge base, then the
      core facts that match the query. */
  function Candidates(web: seq<Snippet>, db: seq<Snippet>, query: string, facts: seq<CoreFact>): seq<Snippet> {
    web + db + CoreSnippets(RelevantCoreFacts(query, facts))
  }

  /** The evaluation `evaluate_information_quality` returns over the fact
      table `facts`. */
  function Evaluate(web: seq<Snippet>, db: seq<Snippet>, query: string, now: Instant, facts: seq<CoreFact>)
    : (e: Evaluation)
    ensures e.coreKnowledgeUsed == |RelevantCoreFacts(query, facts)| <= 3
    ensures |e.snippets| == |web| + |db| + e.coreKnowledgeUsed
    ensures !e.hasConflicts && e.conflicts == []
  {
    var core := RelevantCoreFacts(query, facts);
    var scored := RescoreAll(web + db + CoreSnippets(core), now);
    var ranked := SortDesc(scored, ConfidenceOf);
    var conflicts := DetectConflicts(scored);
    Evaluation(ranked, |conflicts| > 0, conflicts, if ranked != [] then ranked[0].confidence else 0.0,
               |core|, CrossVerify(scored, query))
  }

  /** The knowledge system: its fact table, loaded when it is built, in
      insertion order. */
  class KnowledgeSystem {
    var coreKnowledge: seq<CoreFact>

    constructor(loadedAt: Instant)
      ensures coreKnowledge == CoreFacts(loadedAt)
    {
      coreKnowledge := CoreFacts(loadedAt);
    }

    /** `evaluate_information_quality`: the core facts are appended, the
        fusion loop rescores every snippet in place, then the set is
        cross-verified and ranked. */
    method EvaluateInformationQuality(web: seq<Snippet>, db: seq<Snippet>, query: string, now: Instant)
      returns (e: Evaluation)
      ensures e == Evaluate(web, db, query, now, coreKnowledge)
    {
      var all := web + db;
      var core := RelevantCoreFacts(query, coreKnowledge);
      var k := 0;
      while k < |core|
        invariant 0 <= k <= |core|
        invariant all == web + db + CoreSnippets(core[..k])
      {
        assert CoreSnippets(core[..k + 1]) == CoreSnippets(core[..k]) + [CoreSnippet(core[k])];
        all := all + [CoreSnippet(core[k])];
        k := k + 1;
      }
      assert core[..|core|] == core;
      ghost var original := all;
      var i := 0;
      while i < |all|
        invariant 0 <= i <= |all| == |original|
        invariant forall j :: 0 <= j < i ==> all[j] == Rescore(original[j], now)
        invariant forall j :: i <= j < |all| ==> all[j] == original[j]
      {
        all := all[i := Rescore(all[i], now)];
        i := i + 1;
      }
      assert all == RescoreAll(original, now);
      var crossVerification := CrossVerifyInformation(all, query);
      var conflicts := DetectConflicts(all);
      var ranked := SortDesc(all, ConfidenceOf);
      e := Evaluation(ranked, |conflicts| > 0, conflicts, if ranked != [] then ranked[0].confidence else 0.0,
                      |core|, crossVerification);
    }
  }

  /** The ranked snippets are the rescored candidates, ordered by
      descending confidence, with ties kept in input order; the
      cross-verification is of the rescored candidates, before ranking. */
  lemma EvaluationRanking(web: seq<Snippet>, db: seq<Snippet>, query: string, now: Instant, facts: seq<CoreFact>, c: real)
    ensures var e := Evaluate(web, db, query, now, facts);
            var scored := RescoreAll(Candidates(web, db, query, facts), now);
            && SortedDesc(e.snippets, ConfidenceOf)
            && multiset(e.snippets) == multiset(scored)
            && WithKey(e.snippets, ConfidenceOf, c) == WithKey(scored, ConfidenceOf, c)
            && |e.snippets| == |web| + |db| + e.coreKnowledgeUsed
            && e.crossVerification == CrossVerify(scored, query)
  {
    var scored := RescoreAll(Candidates(web, db, query, facts), now);
    SortDescStable(scored, ConfidenceOf, c);
  }

  /** `highest_confidence` is the largest confidence of the ranked set, or
      0.0 when it is empty; the conflict hook never reports a conflict. */
  lemma EvaluationHighest(web: seq<Snippet>, db: seq<Snippet>, query: string, now: Instant, facts: seq<CoreFact>)
    ensures var e := Evaluate(web, db, query, now, facts);
            && (e.snippets == [] ==> e.highestConfidence == 0.0)
            && (e.snippets != [] ==> e.highestConfidence == e.snippets[0].confidence)
            && (forall s :: s in e.snippets ==> s.confidence <= e.highestConfidence)
            && !e.hasConflicts && e.conflicts == []
            && e.coreKnowledgeUsed <= 3
  {
    var e := Evaluate(web, db, query, now, facts);
    if e.snippets != [] {
      FirstIsLargest(e.snippets, ConfidenceOf);
    }
  }

  /** Every ranked snippet carries a freshness of at least 0.3, a quality
      in [0.1, 1], and a confidence in [0, 1] when it is not dated in the
      future. */
  lemma EvaluationScores(web: seq<Snippet>, db: seq<Snippet>, query: string, now: Instant, facts: seq<CoreFact>)
    ensures forall s :: s in Evaluate(web, db, query, now, facts).snippets ==>
              s.freshness >= 0.3 && 0.1 <= s.qualityScore <= 1.0
              && (s.timestamp <= now ==> 0.0 <= s.confidence <= 1.0)
  {
    var all := Candidates(web, db, query, facts);
    var scored := RescoreAll(all, now);
    var ranked := Evaluate(web, db, query, now, facts).snippets;
    assert ranked == SortDesc(scored, ConfidenceOf);
    forall s | s in ranked
      ensures s.freshness >= 0.3 && 0.1 <= s.qualityScore <= 1.0
              && (s.timestamp <= now ==> 0.0 <= s.confidence <= 1.0)
    {
      assert s in multiset(scored);
      var i :| 0 <= i < |scored| && scored[i] == s;
      RescoredScores(all[i], now);
    }
  }

  lemma RescoredScores(s: Snippet, now: Instant)
    ensures var r := Rescore(s, now);
            r.freshness >= 0.3 && 0.1 <= r.qualityScore <= 1.0 && r.timestamp == s.timestamp
            && (r.timestamp <= now ==> 0.0 <= r.confidence <= 1.0)
  {
    if s.timestamp <= now {
      ConfidenceInUnitInterval(s, now);
    }
  }
}
