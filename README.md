# Evidence scoring, search cache, rate limiter and chat memory of the AI platform backend

This Dafny project models the backend core of the AI platform: the
retrieval-quality pipeline that turns web, knowledge-base and built-in
snippets into a ranked, confidence-scored and cross-verified evidence
set, and the stateful structures around it:

- the one-hour, 100-entry LRU search cache;
- the 30-requests-per-minute sliding-window rate limiter;
- the per-session chat memory;
- the meta-search result selection;
- the rules the chat endpoint applies to follow-up questions and scraped pages.

One module per source file:

| module | file | form |
|---|---|---|
| `Knowledge` | backend/services/knowledge.py | pure functions; `KnowledgeSystem` class holding the core-fact table; loop methods for phrase extraction, cross-verification and the in-place rescoring |
| `Db` | backend/services/db.py | `SearchCache` class over an ordered key list and an entry map; `RankHits` loop |
| `Memory` | backend/services/memory.py | `ChatMemoryManager` class over a map of memories |
| `RateLimit` | backend/services/rate_limit.py | `RateLimiter` class over a map of request windows |
| `WebSearch` | backend/services/web_search.py | nested loops with breaks, proved equal to a three-level recursive definition; the search over the `SearchCache` |
| `Chat` | backend/main.py | follow-up rules, scraped-page acceptance loop, `Stats` class for the confidence history |

`Common`, `Text` and `Ranking` hold the Python built-ins the core relies on:
- slicing (`PyTake`, `PyTail`) and `round` (`Round1`, `Round2`);
- `str.lower`, `in`, `split`, `strip` and `join`;
- the stable descending sort.

Every class method is proved equal to a pure transition function on
values (`CacheGet`/`CachePut`, `Lookup`/`AddMessageTo`, `Check`,
`Evaluate`, `Search`, `Record`). So are the module-level loop methods:
`CollectScraped` equals `AcceptAll`, and `CollectCandidates` equals
`ScanVariations`. The lemmas beside those functions state the properties. Time is a parameter `now` in seconds.

Behaviour a reader might not expect, modelled as the code has it:

- **Length adjustment.** The content-length adjustment is one `if/elif` chain. Text under 20 characters takes the `< 50` arm (−0.3). The `< 20` arm (−0.5) is never reached, and the two penalties never add up (`Knowledge.LengthAdjustment`).
- **Freshness.** It has no upper clamp. A snippet dated in the future gets a freshness above 1.0, and so a confidence that may exceed 1 (`Knowledge.Freshness`).
- **Cache overwrite position.** Overwriting a cached key keeps its position in the LRU order; it is not moved to the most-recently-used end (`Db.PutExisting`).
- **Empty cached values.** The cache itself stores an empty list. Only the search caller declines to write one (`WebSearch.SearchMiss`). The caller also treats a cached empty list as a miss (`WebSearch.SearchCacheHit` needs a non-empty value).
- **Transcript labels.** The lines are labelled `KULLANICI:` and `ASİSTANT:`.
- **Health ministry domain.** `saglik.gov.tr` is listed among the health domains (trust 0.80). Every URL containing it also contains `.gov.tr`, so it is scored as official (0.95) (`Knowledge.HealthMinistryIsOfficial`).
- **Memory key.** The key `user_session` is not injective (`Memory.MemoryKeyCollides`). Neither is the search cache key (`WebSearch.CacheKeyCollides`).
- **Negation branch.** Cross-verification counts a snippet as conflicting only when it does not contain the phrase but contains "değil phrase" (or another negation pattern). Each pattern ends with the phrase, so such content always contains the phrase and is counted as support first. No phrase ever has a conflicting source, and a phrase agrees exactly when some snippet contains it (`Knowledge.NoDisputers`, `Knowledge.VerdictAgrees`).
- **Dead fallback.** The search's fallback for "no final results but some candidates" recomputes the same slice and never changes the answer (`WebSearch.FallbackIsDead`).

## Model

| member | source | states |
|---|---|---|
| Knowledge.DomainTrust | backend/services/knowledge.py:108-131 | an empty URL scores 0.5; every score is one of 0.95, 0.85, 0.80, 0.1, 0.5; a non-empty URL scores 0.95 exactly when its lower-cased form contains an official domain |
| Knowledge.DomainTrustIsFirstMatch | backend/services/knowledge.py:112-131 | the score is that of the first tier, in the order official, news, tech/health/sports, spam, whose domain list has a substring match, else 0.5 |
| Knowledge.HealthMinistryIsOfficial | backend/services/knowledge.py:10-131 | any URL containing `saglik.gov.tr` scores 0.95, since the official `.gov.tr` tier is tried first |
| Knowledge.LengthAdjustment | backend/services/knowledge.py:139-149 | −0.3 under 50 characters (so also under 20: the −0.5 arm is never taken), 0 exactly for 50-100, +0.1 for 101-200, +0.2 for 201-500, +0.3 exactly above 500 |
| Knowledge.SentenceCount | backend/services/knowledge.py:151 | the count is the number of '.', '!' and '?' characters |
| Knowledge.DiversityAdjustment | backend/services/knowledge.py:159-165 | 0 for ten words or fewer; above ten, −0.3 exactly when the unique-word ratio is under 0.4 and +0.1 exactly when it is over 0.8, else 0 |
| Knowledge.TitleBonus | backend/services/knowledge.py:173-177 | the bonus is 0.1 exactly when title and content are non-empty and the first 5 title words meet the first 20 content words, else 0 |
| Knowledge.RawScore | backend/services/knowledge.py:137-177 | the unclamped score lies in [−0.08, 1.59]; without the domain and title terms it is at most 1.3 |
| Knowledge.Clamp | backend/services/knowledge.py:180 | the quality lies in [0.1, 1]: a score above 1 becomes 1, one under 0.1 becomes 0.1, one in range is unchanged |
| Knowledge.AssessContentQuality | backend/services/knowledge.py:133-184 | quality in [0.1, 1]; domain trust equals the URL's trust score; content length is the text length; sentence count is the number of '.', '!', '?' |
| Knowledge.QualityMonotoneInTrust | backend/services/knowledge.py:170-171 | a more trusted URL never lowers the quality of the same text |
| Knowledge.TitleOnlyRaises | backend/services/knowledge.py:173-177 | assessing with a title never scores lower than without one |
| Knowledge.KeepKeyWords | backend/services/knowledge.py:192-193 | a word survives exactly when it is in the input and is not a stop word and longer than 2 characters |
| Knowledge.KeepKeyWordsCount | backend/services/knowledge.py:192-193 | a key word occurs in the result as often as in the input, any other word not at all |
| Knowledge.KeepKeyWordsAppend | backend/services/knowledge.py:192-193 | the filter keeps input order: filtering a concatenation concatenates the filtered parts |
| Knowledge.Bigrams | backend/services/knowledge.py:195-197 | k words give max(0, k−1) bigrams, entry i being word i, a space, and word i+1 |
| Knowledge.KeyPhrases | backend/services/knowledge.py:190-199 | k key words give k−1 adjacent-pair bigrams followed by the k words themselves |
| Knowledge.ExtractKeyPhrases | backend/services/knowledge.py:190-199 | the loop computes the key phrases: bigrams then key words |
| Knowledge.KeyPhrasesShape | backend/services/knowledge.py:190-199 | k key words give 2k−1 phrases (none for k = 0), ending with the k words themselves, none a stop word or shorter than 3 |
| Knowledge.FirstThreePhrases | backend/services/knowledge.py:209-212 | the three phrases cross-verification checks, spelled out for 0, 1, 2, 3 and 4+ key words |
| Knowledge.SupportAndConflictDisjoint | backend/services/knowledge.py:217-235 | a snippet is counted as supporting or as conflicting, never both |
| Knowledge.SupportersComplete | backend/services/knowledge.py:217-224 | every snippet containing the phrase contributes its reference to the supporting sources, and every supporting source is such a reference |
| Knowledge.NeverDisputes | backend/services/knowledge.py:217-235 | no snippet is counted as conflicting: content with a negation pattern contains the phrase |
| Knowledge.NoDisputers | backend/services/knowledge.py:212-243 | every phrase's conflicting sources are empty |
| Knowledge.VerdictAgrees | backend/services/knowledge.py:212-251 | a phrase has no conflict, and agrees exactly when some snippet contains it |
| Knowledge.AgreeingCount | backend/services/knowledge.py:249-252 | the number of phrases with more support than conflict is at most the number of phrases |
| Knowledge.Consensus | backend/services/knowledge.py:245-252 | consensus lies in [0, 1] and exceeds 0.5 exactly when more than half of the phrases agree |
| Knowledge.RatioAboveHalf | backend/services/knowledge.py:249-257 | a/n lies in [0, 1] and exceeds 0.5 exactly when 2a > n |
| Knowledge.CrossVerify | backend/services/knowledge.py:205-261 | too few sources exactly when fewer than 2 snippets; otherwise total sources is the snippet count, verdict k is that of the k-th of the first three key phrases over all snippets, consensus is the agreeing fraction rounded to 2 places and lies in [0, 1], verified iff more than half agree |
| Knowledge.JudgePhrase | backend/services/knowledge.py:213-243 | the snippet loop computes the phrase verdict (supporters and disputers) |
| Knowledge.CrossVerifyInformation | backend/services/knowledge.py:205-261 | the method computes the cross-verification result |
| Knowledge.JudgePhrases | backend/services/knowledge.py:209-243 | the phrase loop computes one verdict per phrase, in order |
| Knowledge.CountAgreeing | backend/services/knowledge.py:249-252 | the counting loop computes the number of agreeing verdicts |
| Knowledge.CoreFacts | backend/services/knowledge.py:86-102 | the fact table has four facts |
| Knowledge.MatchingFacts | backend/services/knowledge.py:271-274 | a fact is kept exactly when it is in the table and contains the query or one of its words |
| Knowledge.MatchingFactsCount | backend/services/knowledge.py:271-274 | a matching fact occurs among the matches as often as in the table, any other not at all |
| Knowledge.MatchingFactsAppend | backend/services/knowledge.py:271-274 | matching keeps table order: the matches of a concatenation are those of each part, in turn |
| Knowledge.RelevantCoreFacts | backend/services/knowledge.py:267-276 | at most 3 facts, a prefix of the matching ones in table order, each matching; fewer than 3 means every match is returned |
| Knowledge.EmptyQueryMatchesAll | backend/services/knowledge.py:272 | the empty query matches every fact, so the first three are returned |
| Knowledge.CoreSnippets | backend/services/knowledge.py:300-309 | snippet i is the snippet of fact i |
| Knowledge.CoreSnippet | backend/services/knowledge.py:300-309 | the snippet carries the fact's text, confidence, category and verification time as its timestamp, type `core_knowledge`, no URL, freshness 1 and quality and trust 0.5 |
| Knowledge.SourceWeight | backend/services/knowledge.py:75-83 | weights lie in [0.5, 0.95] and an unknown source type weighs 0.5 |
| Knowledge.Freshness | backend/services/knowledge.py:312-313 | freshness is at least 0.3, equals 0.3 exactly from 504 hours on, is 1 at age 0, at most 1 for past timestamps and above 1 for future ones |
| Knowledge.Rescore | backend/services/knowledge.py:311-328 | content, type, URL, timestamp and category are kept; freshness, quality (URL as title), trust and confidence = round(weight·freshness·quality·trust, 2) are recomputed |
| Knowledge.FusedInUnitInterval | backend/services/knowledge.py:325-328 | a product of four factors in [0, 1] lies in [0, 1] |
| Knowledge.ConfidenceInUnitInterval | backend/services/knowledge.py:311-328 | a snippet not dated in the future gets a confidence in [0, 1] |
| Knowledge.RescoreAll | backend/services/knowledge.py:311-328 | snippet i of the result is snippet i rescored |
| Knowledge.DetectConflicts | backend/services/knowledge.py:282-285 | no conflict is ever reported |
| Knowledge.KnowledgeSystem.constructor | backend/services/knowledge.py:73-102 | the system starts with the four core facts |
| Knowledge.Evaluate | backend/services/knowledge.py:291-342 | the number of core facts used is that of the relevant ones, at most 3; one ranked snippet per web, db and core snippet; no conflicts |
| Knowledge.KnowledgeSystem.EvaluateInformationQuality | backend/services/knowledge.py:291-342 | the method, with its append and in-place rescoring loops, computes the evaluation |
| Knowledge.EvaluationRanking | backend/services/knowledge.py:297-333 | ranked snippets are the rescored web ++ db ++ core snippets, sorted by descending confidence, a permutation, ties kept in input order; the cross-verification is of the rescored snippets before ranking |
| Knowledge.EvaluationHighest | backend/services/knowledge.py:330-340 | the highest confidence is 0.0 for an empty set and otherwise the first ranked snippet's confidence, which bounds every other; no conflicts; at most 3 core facts used |
| Knowledge.EvaluationScores | backend/services/knowledge.py:311-328 | every ranked snippet has freshness ≥ 0.3, quality in [0.1, 1], and, unless dated in the future, confidence in [0, 1] |
| Knowledge.RescoredScores | backend/services/knowledge.py:311-328 | a rescored snippet has freshness ≥ 0.3, quality in [0.1, 1], its timestamp, and, unless dated in the future, confidence in [0, 1] |
| Db.Remove | backend/services/db.py:133 | removing a key keeps exactly the other keys, leaves an order without it unchanged, keeps keys distinct, and shortens a distinct order by one |
| Db.RemoveCuts | backend/services/db.py:133 | in a distinct order the key's one occurrence is cut out, the keys before and after it keeping their order |
| Db.CacheGet | backend/services/db.py:130-141 | a returned value was stored under the key less than an hour ago; the state stays valid |
| Db.CachePut | backend/services/db.py:143-146 | the key then holds the value stamped now; the state stays valid (keys distinct, at most 100) |
| Db.GetAbsent | backend/services/db.py:130-141 | reading an absent key returns nothing and changes nothing |
| Db.GetPresent | backend/services/db.py:132-139 | reading a present key moves it last; a fresh entry is returned, an expired one deleted with nothing returned |
| Db.PutExisting | backend/services/db.py:144 | overwriting keeps the key's position and replaces the entry |
| Db.PutNew | backend/services/db.py:144-146 | a new key goes last; when full, exactly the first key is evicted and all others kept |
| Db.PutThenGet | backend/services/db.py:130-146 | a written value is read back within the hour and not after |
| Db.SearchCache.constructor | backend/services/db.py:126-146 | the cache starts empty and valid |
| Db.SearchCache.ManageCache | backend/services/db.py:126-146 | no value is a read, a value is a write, each as its transition function; validity is kept |
| Db.KeepRelevant | backend/services/db.py:102-113 | a document is kept exactly when it comes from a hit whose relevance reaches the threshold |
| Db.SearchResults | backend/services/db.py:102-119 | no more documents than hits, sorted by descending relevance, a permutation of the relevant documents |
| Db.RankHits | backend/services/db.py:102-119 | the loop and sort compute the search results |
| Db.SearchResultsSound | backend/services/db.py:102-119 | no more documents than hits, sorted by descending relevance, each reaching the threshold and coming from a hit, and every qualifying hit returned |
| Memory.MemoryKey | backend/services/memory.py:33-34 | the key is the user id, an underscore, then the session id |
| Memory.MemoryKeyCollides | backend/services/memory.py:33-34 | ("a_b", "c") and ("a", "b_c") share a key |
| Memory.MemoryKeyInjective | backend/services/memory.py:33-34 | with no underscore in the user ids the key determines the pair |
| Memory.Lookup | backend/services/memory.py:36-59 | the key is present afterwards, holding the returned memory; other entries are unchanged |
| Memory.LookupCases | backend/services/memory.py:39-59 | an unseen key gets an empty memory; an expired one (idle strictly over 2 hours) is reset; a live one is returned unchanged, its last activity untouched |
| Memory.Append | backend/services/memory.py:71-76 | the message is last, the length is min(n+1, 20), the messages are the tail of old ++ new, last activity is now, other fields kept |
| Memory.AddMessageTo | backend/services/memory.py:61-76 | only the caller's key changes, to the looked-up memory with the message appended |
| Memory.BoundedPreserved | backend/services/memory.py:75-76 | lookups and appends keep every memory at 20 messages or fewer |
| Memory.ConversationContext | backend/services/memory.py:78-98 | the lookup's state change, and "" for a memory without messages |
| Memory.Context | backend/services/memory.py:86-98 | the transcript is empty exactly when no message is selected |
| Memory.ContextLines | backend/services/memory.py:89-98 | when at least one message is selected and no message contains a line break, splitting the transcript on newlines gives one labelled line per recent message, oldest first |
| Memory.ContextLength | backend/services/memory.py:86-98 | for a non-empty memory, a positive count gives min(count, n) lines and a non-empty transcript |
| Memory.Clear | backend/services/memory.py:100-103 | only the given key is removed; an absent key changes nothing |
| Memory.ChatMemoryManager.constructor | backend/services/memory.py:28-31 | the manager starts with no memories |
| Memory.ChatMemoryManager.GetUserMemory | backend/services/memory.py:36-59 | the method computes the lookup |
| Memory.ChatMemoryManager.AddMessage | backend/services/memory.py:61-76 | the method computes the append |
| Memory.ChatMemoryManager.GetConversationContext | backend/services/memory.py:78-98 | the rendering loop computes the transcript |
| Memory.ChatMemoryManager.ClearMemory | backend/services/memory.py:100-103 | the method computes the removal |
| RateLimit.Recent | backend/services/rate_limit.py:17 | an instant is kept exactly when it was in the list and is less than 60 seconds old |
| RateLimit.RecentCount | backend/services/rate_limit.py:17 | an in-window instant is kept as often as it occurs, any other not at all, so the length is the in-window count |
| RateLimit.RecentAppend | backend/services/rate_limit.py:17 | filtering keeps order: the filter of a concatenation concatenates the filtered parts |
| RateLimit.RecentAllExpired | backend/services/rate_limit.py:17-19 | a list whose instants are all 60 seconds old or more filters to nothing |
| RateLimit.RecentIdempotent | backend/services/rate_limit.py:17 | filtering twice is filtering once |
| RateLimit.Sweep | backend/services/rate_limit.py:16-19 | every list is filtered and emptied lists are removed |
| RateLimit.Check | backend/services/rate_limit.py:10-28 | accepted exactly when fewer than 30 in-window requests; a denial only sweeps; an acceptance appends now to the caller's filtered list |
| RateLimit.CheckKeepsInv | backend/services/rate_limit.py:16-28 | afterwards no list is empty or longer than 30, and every instant is within 60 seconds of now |
| RateLimit.CheckOnlyFiltersOthers | backend/services/rate_limit.py:16-25 | other clients' lists, and a denied client's list, are only filtered |
| RateLimit.AcceptCounts | backend/services/rate_limit.py:27 | an acceptance adds exactly one in-window request |
| RateLimit.IdleClientAccepted | backend/services/rate_limit.py:16-28 | a client idle for a minute is accepted with a new one-element list |
| RateLimit.RateLimiter.constructor | backend/services/rate_limit.py:6 | the limiter starts with no windows |
| RateLimit.RateLimiter.SweepWindows | backend/services/rate_limit.py:16-19 | the loop over the keys computes the sweep |
| RateLimit.RateLimiter.CheckRateLimit | backend/services/rate_limit.py:10-28 | the method computes the check and its new state |
| WebSearch.SearchRequests | backend/services/web_search.py:46-66 | three variations, each tried first in the given language (none sent when empty) and then in "all" |
| WebSearch.SearchVariations | backend/services/web_search.py:46-50 | the query, then the query with " 2024", then with " detaylı" |
| WebSearch.Candidate | backend/services/web_search.py:93-130 | accepted exactly when the URL has no social-media domain and the assessed quality is at least 0.15; the result keeps the URL, the title cut to 150 and the content to 400 characters, and the assessed quality and trust |
| WebSearch.CollectCandidates | backend/services/web_search.py:56-146 | the nested loops with their breaks compute the candidate list |
| WebSearch.CollectFromLanguages | backend/services/web_search.py:57-143 | the language loop, skipping failed and empty responses and stopping on an exception or a full list |
| WebSearch.CollectFromItems | backend/services/web_search.py:90-140 | the item loop, placing trusted results first and stopping at twice the count |
| WebSearch.ScanItems | backend/services/web_search.py:90-140 | the gathered list only grows, by at most one per item, and keeps what was there |
| WebSearch.ScanLanguages | backend/services/web_search.py:57-143 | the gathered list only grows and keeps what was there; an exception after only failed requests ends the search unchanged; completeness is in ScanLanguagesKeepsAll |
| WebSearch.ScanVariations | backend/services/web_search.py:56-146 | the gathered list only grows and keeps what was there; completeness is in ScanVariationsKeepsAll |
| WebSearch.PlaceKeepsGood | backend/services/web_search.py:132-136 | front insertion of trusted and appending of others keeps every trusted result before every other |
| WebSearch.ScanVariationsGood | backend/services/web_search.py:56-146 | every gathered candidate passed the filters, and trusted ones come first |
| WebSearch.ScanVariationsBound | backend/services/web_search.py:139-146 | at most twice the count is gathered (one when the count is not positive) |
| WebSearch.ScanItemsKeepsAll | backend/services/web_search.py:90-140 | below the cap every acceptable item of a response is kept, and so is what was gathered before |
| WebSearch.ScanLanguagesKeepsAll | backend/services/web_search.py:57-143 | with no exception and fewer items than the cap, every acceptable item of every response of a variation is kept, and the search goes on |
| WebSearch.ScanVariationsKeepsAll | backend/services/web_search.py:56-146 | with no exception and fewer items than the cap, every acceptable item of every response is gathered |
| WebSearch.CacheKey | backend/services/web_search.py:22 | the key is "search_", the query, "_", the count in decimal, "_" and the language |
| WebSearch.CacheKeyCollides | backend/services/web_search.py:22 | underscores let different searches share a cache key |
| WebSearch.SearchCacheHit | backend/services/web_search.py:25-28 | a fresh non-empty cached list is returned as it is |
| WebSearch.Search | backend/services/web_search.py:15-177 | validity of the cache is kept; a fresh non-empty cached answer is returned with the read's state; an empty answer leaves the cache as the read left it |
| WebSearch.SearchMiss | backend/services/web_search.py:30-177 | on a miss the answer is sorted by quality·trust, has min(count, candidates) entries, each a well-formed candidate, is a sub-multiset of the candidates, and no candidate left out scores above one kept; an empty answer is not cached, a non-empty one is read back within the hour |
| WebSearch.FallbackIsDead | backend/services/web_search.py:158-166 | the fallback recomputes the same slice |
| WebSearch.AdvancedWebSearch | backend/services/web_search.py:15-177 | the method computes the search and its cache update, keeping the cache valid |
| WebSearch.KeptLines | backend/services/web_search.py:229-233 | a piece whose stripped form is longer than 20 characters is kept, stripped; every kept line is such a stripped piece |
| WebSearch.KeptLinesAppend | backend/services/web_search.py:229-233 | lines are kept in piece order: those of a concatenation are those of each part, in turn |
| WebSearch.ScrapeText | backend/services/web_search.py:228-236 | the text is the first min(8000, n) characters of the kept lines joined by spaces |
| WebSearch.ScrapeUrl | backend/services/web_search.py:180-239 | at most 8000 characters, and "" for a failed request or a status other than 200 |
| WebSearch.ScrapeTextSingleLine | backend/services/web_search.py:229-234 | scraped text has no line break |
| WebSearch.ScrapeOneLine | backend/services/web_search.py:229-236 | one long line comes back stripped and truncated |
| Chat.LooksFollowupIff | backend/main.py:78-81 | a follow-up exactly when some trigger occurs in the stripped, lower-cased text or it has fewer than 3 words |
| Chat.EmptyIsFollowup | backend/main.py:78-81 | blank text is a follow-up |
| Chat.LetterOIsFollowup | backend/main.py:78-81 | any text containing "o" is a follow-up |
| Chat.LooksFollowup | backend/main.py:78-81 | text of fewer than 3 words, or containing "yarın", is a follow-up |
| Chat.UserContents | backend/main.py:162 | every collected content is that of a user message and every user message's content is collected |
| Chat.UserContentsAppend | backend/main.py:162 | contents are taken in message order: those of a concatenation are those of each part, in turn |
| Chat.AugmentedShape | backend/main.py:165-167 | the augmented query starts with the earliest recent user message and ends with a space and the message |
| Chat.AugmentQueryCases | backend/main.py:161-167 | the query changes only for a follow-up with history, and then ends with a space and the message |
| Chat.AugmentQuery | backend/main.py:161-167 | a non-follow-up is sent as it is; every query ends with the message |
| Chat.AugmentAfterAdd | backend/main.py:116-167 | with the message already stored, a follow-up is always augmented, and a first-message follow-up is sent as "message message" |
| Chat.SourceTypeFor | backend/main.py:188-193 | official site exactly above 0.9, reputable news exactly in (0.8, 0.9], general web exactly at 0.8 or below |
| Chat.SourceTypeOfTiers | backend/main.py:188-193 | official domains label as official sites, news domains as reputable news, the 0.80 tier as general web |
| Chat.AcceptScraped | backend/main.py:179-225 | a page is used exactly when its scrape gave text longer than 100 characters with quality ≥ 0.4; the snippet carries the assessed quality, freshness 1.0 and the trust's label, and the entry the rounded scores |
| Chat.AcceptAll | backend/main.py:179-225 | as many entries as snippets, at most one per paired result |
| Chat.AcceptAllComplete | backend/main.py:179-225 | every accepted page's snippet and entry are in the output |
| Chat.AcceptAllOrigin | backend/main.py:179-225 | the snippet and entry at each position are the outcome of one accepted page |
| Chat.AcceptAllPaired | backend/main.py:179-225 | each snippet and its entry describe the same URL; labels follow trust; quality ≥ 0.4; confidence = 0.8·trust ≤ 0.76 |
| Chat.RejectedPageAddsNothing | backend/main.py:180 | a failed or short page adds nothing |
| Chat.CollectScraped | backend/main.py:179-225 | the loop computes the accepted snippets and entries |
| Chat.Record | backend/main.py:286-288 | the score is last, the length is min(n+1, 100), and the history is the tail of old ++ score |
| Chat.RecordTwice | backend/main.py:286-288 | two recordings end the history with both scores in order |
| Chat.Stats.RecordConfidence | backend/main.py:286-288 | the method computes the recording |
| Text.ContainsIffOccurs | backend/services/knowledge.py:115 | `sub in s` holds exactly when `sub` occurs at some index of `s` |
| Text.JoinSplitOn | backend/services/web_search.py:231-234 | joining the pieces of a split with the separator gives back the text |
| Text.SplitOnJoin | backend/services/memory.py:98 | splitting a join of a non-empty list of separator-free parts gives back the parts |
| Ranking.SortDesc | backend/services/knowledge.py:333 | the sort is a permutation in descending key order |
| Ranking.SortDescStable | backend/services/knowledge.py:333 | items of equal key keep their relative order |
| Ranking.SortedPrefixIsTop | backend/services/web_search.py:153-158 | a sorted list's first n elements are a sub-multiset of it and no element left out has a larger key than one kept |

## Left out

- HTTP, the SearXNG client, BeautifulSoup extraction, the Ollama model, chromadb and the sentence embedding are not modelled. Request outcomes and extracted page text are parameters. In `search_db` only the post-processing of given hits is modelled. The `min(n, count)` limit belongs to the external query, so the model does not bound the document count by `n`.
- `save_to_db`, its duplicate check, and the md5 document and fact keys are left out. They are external storage.
- The `stats` counters (cache hits and misses, quality rejections, cross-verifications, scraped pages, query counts) are left out; only the confidence history is modelled. They are bookkeeping only.
- Locks and concurrency are not modelled. Each locked body is one sequential method, and the concurrent scrape tasks are their list of outcomes.
- Clocks: `datetime.now()` and `time.time()` become the parameter `now`, in seconds. Import-time default timestamps are not modelled. One `now` stands for every clock read within one call. The search reads the clock again for its cache write after the network requests, and the chat endpoint reads it again for each scraped snippet. In the model a cached search therefore expires no later than it does in the code, and possibly earlier.
- ContextLines: a message whose content contains a line break renders as several transcript lines, so the one-line-per-message split is stated only for messages without line breaks.
- Floating point is modelled with exact reals:
  - `Common.Round2` and `Common.Round1` round half up, not Python's round-half-even on binary floats;
  - boundaries under float accumulation (for example the 0.15 and 0.4 quality floors) are taken exactly.
- `Text.Lower` lower-cases ASCII, Latin-1 and Latin Extended-A (Turkish `İ` becomes `i̇`). Other scripts are left unchanged, since full Unicode case mapping is outside the model.
- `Knowledge.KnowledgeSystem.EvaluateInformationQuality` works on snippet values. Python rescores the caller's snippet objects in place, so the web and knowledge-base lists the caller holds are changed too; that aliasing is not captured.
- Metadata of knowledge-base hits is a string-to-string map, and scraped-page metadata is not modelled.
- Prompt building, system prompts, the `/api` endpoints, the debug endpoint and the average of the confidence history are endpoint glue.
- KeepKeyWords: its own contract states membership only; the counts and the order are stated by `Knowledge.KeepKeyWordsCount` and `Knowledge.KeepKeyWordsAppend`, because in the contract they exceed the solver's budget for the callers.
- MatchingFacts: its own contract states membership only; the counts and table order are stated by `Knowledge.MatchingFactsCount` and `Knowledge.MatchingFactsAppend`, for the same reason.
- Recent: its own contract states membership only; the in-window count and the order are stated by `RateLimit.RecentCount` and `RateLimit.RecentAppend`, for the same reason.
- Remove: its own contract states membership, distinctness and length; the position of the cut is stated by `Db.RemoveCuts`, for the same reason.
- `Memory.ChatMemoryManager.AddMessage` updates the stored memory through its key. Python mutates the memory object it got from the lookup, which is the same object, so the result is the same.
