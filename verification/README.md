# Feedsage worker: the search-and-rank core in Dafny

This project models the part of the Feedsage worker that turns a prompt into a ranked video feed:

- `searchOnYt` in `src/lib/ytSearch.ts`. It runs one YouTube search per query and flattens the results. An empty result returns early. Otherwise it collects the distinct video and channel ids, looks them up in batches of 50 (`chunk`) and builds the details and channel maps. Then it decorates every result with its view count, a duration label (`parseISODuration`) and the channel avatar, and drops the shorts: items of 60 seconds or less by `isoDurationToSeconds`.
- The `GET /feed` handler in `src/routes/feed.ts`. It fills the prompt template of `src/lib/prompt.ts` with `String.prototype.replace` and expands it into search queries. It searches them and builds the texts `title description`. It embeds the user prompt together with those texts, pairs each video with its embedding and score, and sorts by descending score.

Every remote call is a function parameter: the search, videos and channels endpoints, the text-generation call with its `JSON.parse`, the embedding call and `cosineSimilarity`. The model is therefore a set of pure functions of those answers. Where JavaScript semantics matter, they are written out:

- `Set` insertion order;
- `Map.set` overwriting;
- `??` defaults;
- first-occurrence `replace` with its `$` patterns (the GetSubstitution operation of ECMA-262);
- the stable `Array.prototype.sort` that ECMAScript 2019 and later require.

Modules, in dependency order:

- `Wrappers`: `Option` and `Result`.
- `Seqs`: `Flatten` and the `map`/`filter` combination.
- `Chunking`: `chunk`.
- `Decimal`: `Number` on digit strings and `String` on naturals.
- `Duration`: the duration regular expression as a scanner, and the two duration helpers.
- `Dedup`: `[...new Set(xs)]`.
- `YouTube`: the API records.
- `Lookup`: the id maps.
- `Enrichment`: decorating and filtering.
- `Search`: `searchOnYt`.
- `Template`: `replace` and the prompt.
- `Ranking`: texts, pairing and the sort.
- `Feed`: the handler.

The regular expression `PT(?:(\d+)H)?(?:(\d+)M)?(?:(\d+)S)?` is unanchored and has only optional groups after `PT`. It therefore behaves as a deterministic scan:

1. Find the first `PT`.
2. For `H`, `M` and `S` in turn, read the maximal run of digits.
3. Consume the run, with its letter, only if that letter follows it.

Each operation has a partner that a lemma connects to it:

- The scanner is paired with `Encode`, the designator form the videos endpoint uses.
- `parseISODuration`'s label is paired with a label parser.
- `chunk` is paired with `Flatten`.
- `Distinct` is paired with the `Set` insertion loop.
- The sort is paired with an independent characterisation: any non-increasing arrangement that keeps equal scores in input order is the sort.

## Model

| member | source | states |
|---|---|---|
| Chunking.Chunk | src/lib/ytSearch.ts:47-53 | every chunk is non-empty and holds at most `size` items, all but the last are full, and there are no chunks exactly when the input is empty |
| Chunking.ChunkFlatten | src/lib/ytSearch.ts:47-53 | the chunks, concatenated in order, give back the input |
| Chunking.ChunkCount | src/lib/ytSearch.ts:47-53 | the number of chunks is the ceiling of the length divided by the size |
| Decimal.ValueOfToString | src/lib/ytSearch.ts:63 | `Number(String(n))` is `n`: reading back the decimal form of a natural gives it back |
| Decimal.ToStringOfValue | src/lib/ytSearch.ts:58-63 | `String(Number(ds))` is `ds` for a digit string without leading zero |
| Decimal.LeadingZero | src/lib/ytSearch.ts:63 | the zero `padStart` adds does not change the number the field shows |
| Decimal.Value | src/lib/ytSearch.ts:58-60 | `Number` on a run of ASCII digits; definition, its properties are in Decimal.ValueOfToString and Decimal.ToStringOfValue |
| Decimal.ToString | src/lib/ytSearch.ts:63 | `String(n)` yields digits without a leading zero, and a single digit exactly for n below 10 |
| Duration.PadTwo | src/lib/ytSearch.ts:63 | `padStart(2, "0")` adds exactly `2 - length` zeros on the left of a shorter string and leaves a string of two or more characters unchanged |
| Duration.FindPT | src/lib/ytSearch.ts:56 | the scan for `PT` returns an occurrence, and no earlier one exists |
| Duration.Designator | src/lib/ytSearch.ts:56 | one optional group `(?:(\d+)X)?`: it never moves backwards or past the end; its full behaviour is in Duration.DesignatorSpec |
| Duration.DesignatorSpec | src/lib/ytSearch.ts:56-60 | with k the end of the maximal digit run at i, the group reads the run and its letter exactly when the run is non-empty and the letter follows it; otherwise it is absent and counts as 0 (empty run, run reaching the end, other character after it) |
| Duration.DesignatorHit | src/lib/ytSearch.ts:56 | a group is greedy: a digit run followed by its letter is consumed whole, with the letter, and read as its value |
| Duration.DesignatorMiss | src/lib/ytSearch.ts:56-60 | a group is absent, consuming nothing and counting as 0 (`?? 0`), exactly when its letter does not close a non-empty digit run at that position |
| Duration.ComponentsOfEncode | src/lib/ytSearch.ts:55-60 | decoding the designator form of any hours, minutes and seconds gives them back, also after any text without `PT` |
| Duration.NoMatchIsZero | src/lib/ytSearch.ts:56-60 | an input without `PT` reads as zero hours, minutes and seconds, which is 0 seconds and the label `0:00` |
| Duration.NoGroupsIsZero | src/lib/ytSearch.ts:56-75 | when "PT" is found but none of the three groups participates, the duration is 0 seconds and the label `0:00` |
| Duration.UnclosedRunIsZero | src/lib/ytSearch.ts:56-75 | `"PT15"`, a digit run without its letter, gives 0 seconds and the label `0:00` |
| Duration.Seconds | src/lib/ytSearch.ts:69-75 | `isoDurationToSeconds`; definition, its properties are in Duration.SecondsOfEncode, Duration.NoGroupsIsZero and Duration.LabelAgreesWithSeconds |
| Duration.DurationLabel | src/lib/ytSearch.ts:55-67 | `parseISODuration`; definition, its properties are in Duration.LabelShape, Duration.LabelRoundTrip and Duration.LabelAgreesWithSeconds |
| Duration.SecondsOfEncode | src/lib/ytSearch.ts:69-75 | the seconds of an encoded duration are 3600 h + 60 m + s |
| Duration.LabelRoundTrip | src/lib/ytSearch.ts:62-66 | the label `h:MM:SS` or `m:SS` parses back to exactly the components it was built from, so nothing is truncated or normalised |
| Duration.LabelShape | src/lib/ytSearch.ts:62-66 | the label has three colon-separated fields when there are hours and two otherwise; the first is the number as `String` writes it, and the minutes and seconds after it are padded to at least two digits |
| Duration.LabelAgreesWithSeconds | src/lib/ytSearch.ts:55-75 | for every input string, the label parses, and it shows exactly the number of seconds that `isoDurationToSeconds` computes |
| Dedup.Distinct | src/lib/ytSearch.ts:117-118 | the id list has no duplicates and holds exactly the ids of the input |
| Dedup.DistinctOrder | src/lib/ytSearch.ts:117-118 | the ids come in order of their first appearance in the input |
| Dedup.DistinctLength | src/lib/ytSearch.ts:117-118 | the id list is no longer than the input |
| Dedup.SetInsertionOrder | src/lib/ytSearch.ts:117 | inserting the items into a `Set` one by one, skipping those already seen, yields `Distinct` |
| Lookup.SetAll | src/lib/ytSearch.ts:135-137 | after the `set` calls, the keys are the old keys plus the ids of the items; each id maps to its last item; other keys keep their values |
| Lookup.SetBatchesFlatten | src/lib/ytSearch.ts:123-138 | filling the map batch by batch is the same as filling it with all items of all batches in order |
| Lookup.BuiltMap | src/lib/ytSearch.ts:121-158 | a map built from empty has exactly the returned ids as keys, each bound to the last item returned for it |
| Lookup.Get | src/lib/ytSearch.ts:166-167 | `Map.get` is defined exactly on the map's keys and returns the bound value |
| Search.Returned | src/lib/ytSearch.ts:103-108 | each query contributes the items of its response, or nothing when the response is rejected or has no `items` |
| Search.FailedQueryContributesNothing | src/lib/ytSearch.ts:103-112 | a query whose fetch fails changes the flattened results no more than leaving that query out would |
| Search.FetchBatches | src/lib/ytSearch.ts:123-158 | the lookup batches fail exactly when some call fails, and otherwise return each batch's items in order |
| Search.SearchOnYt | src/lib/ytSearch.ts:111-114 | with no search results the search returns an empty list and requests no lookups |
| Search.LookupBatches | src/lib/ytSearch.ts:117-123 | the id batches hold at most 50 ids each, all but the last are full, and together they list every id of the results exactly once and nothing else |
| Search.LookupOrder | src/lib/ytSearch.ts:117-118 | the ids are requested in order of first appearance in the results |
| Search.SearchFailsOnLookupFailure | src/lib/ytSearch.ts:123-158 | when there are results, the search fails exactly when a videos or channels call fails, because those loops have no catch |
| Search.SearchSuccess | src/lib/ytSearch.ts:114-193 | a successful search enriches the flattened results with the two maps, whose keys are exactly the returned ids, and requested the distinct-id batches |
| Search.SearchReturnsLongForm | src/lib/ytSearch.ts:161-193 | every returned video is one of the search results, and its label shows more than 60 seconds |
| Enrichment.EnrichIsFilter | src/lib/ytSearch.ts:161-191 | the output is the subsequence of the results at exactly the positions whose duration exceeds 60 seconds, in order, duplicates kept, each decorated |
| Enrichment.MissingDurationDropped | src/lib/ytSearch.ts:169-173 | a result without looked-up details or duration falls back to `PT0S` and is filtered out |
| Enrichment.Enrich | src/lib/ytSearch.ts:161-191 | the `map`/`filter` over the results; definition, its properties are in Enrichment.EnrichIsFilter and Enrichment.EnrichedAreLongForm |
| Enrichment.DecoratedFields | src/lib/ytSearch.ts:175-181 | a decorated video keeps the result; its views are `viewCount` or `"0"`; its avatar is the default thumbnail URL or `""`; its label is the `parseISODuration` label of the video's `contentDetails.duration`, it parses back to that duration's hours, minutes and seconds, and it shows exactly the seconds the filter measured, which for a long-form item is more than 60 |
| Enrichment.EnrichedAreLongForm | src/lib/ytSearch.ts:170-181 | every surviving video's label parses to more than 60 seconds |
| Template.IndexOf | src/routes/feed.ts:29 | the search returns an occurrence of the pattern, and no earlier one exists |
| Template.ReplaceFirst | src/routes/feed.ts:29 | a template without the pattern is returned unchanged |
| Template.ReplaceFirstOnly | src/routes/feed.ts:29 | only the first occurrence is replaced: the text before it and everything after it, later occurrences included, stay as they were |
| Template.SubstitutionVerbatim | src/routes/feed.ts:29 | a replacement without `$` is inserted verbatim |
| Template.SubstitutionOfMatch | src/routes/feed.ts:29 | the replacement `$&` stands for the matched text |
| Template.PlaceholderFirst | src/lib/prompt.ts:1-19 | the first `<USER_PROMPT>` of the template comes right after the opening line's text |
| Template.FillTemplateInserts | src/routes/feed.ts:27-30 | for a prompt without `$`, the instruction is the template with the prompt in place of the placeholder |
| Template.FillTemplateExpandsDollar | src/routes/feed.ts:29 | the prompt `$&` is expanded, not inserted: the instruction is the unfilled template |
| Template.FillTemplate | src/routes/feed.ts:29 | `prompt.replace("<USER_PROMPT>", userPrompt)`; definition, its properties are in Template.FillTemplateInserts and Template.FillTemplateExpandsDollar |
| Ranking.EmbeddingInputs | src/routes/feed.ts:36-42 | the embedding inputs are the user prompt followed by `title description` of each video, in order |
| Ranking.Pair | src/routes/feed.ts:45-56 | given a `cosineSimilarity` that never throws, the pairing throws exactly when the embeddings list is present but shorter than the videos plus one; otherwise video i gets vector i + 1 and is scored against vector 0 |
| Ranking.PairKeepsVideos | src/routes/feed.ts:47-56 | pairing keeps the videos and their order |
| Ranking.SortByScore | src/routes/feed.ts:59-61 | the sort returns a permutation of its input in non-increasing score order |
| Ranking.SortStable | src/routes/feed.ts:59-61 | for every score, the videos with that score keep their input order |
| Ranking.StableSortIsSortByScore | src/routes/feed.ts:59-61 | any non-increasing permutation that keeps equal scores in input order equals the sort, so the stable sort's result is unique |
| Ranking.Rank | src/routes/feed.ts:45-61 | given a `cosineSimilarity` that never throws, ranking fails exactly when the embeddings do not cover the prompt and every video |
| Ranking.RankOrders | src/routes/feed.ts:45-61 | a ranking lists every video once, with its own embedding and its score against the prompt's vector, by non-increasing score, with ties in input order |
| Feed.Instruction | src/routes/feed.ts:22-29 | the instruction sent is the template with `system design` in place of the placeholder |
| Feed.FeedFails | src/routes/feed.ts:27-61 | given a `cosineSimilarity` that never throws, the handler fails exactly when the expansion, the search or the embedding call fails, or the embeddings do not cover the prompt and every video |
| Feed.FeedRanks | src/routes/feed.ts:35-61 | a successful answer ranks the searched videos by their score against the prompt's embedding |
| Feed.FeedIsLongForm | src/routes/feed.ts:35-61 | every video of a successful answer is a search result whose label shows more than a minute |
| Feed.NoResults | src/routes/feed.ts:35-48 | with no search results, entry 0 of the embeddings is still read: an empty list throws, and a missing list gives an empty feed |
| Feed.GetFeed | src/routes/feed.ts:21-66 | the `/feed` handler for `system design`; definition, its properties are in Feed.Instruction, Feed.FeedFails, Feed.FeedRanks and Feed.FeedIsLongForm |

## Left out

- HTTP requests are not modelled: URLs, query parameters such as `maxResults` and `relevanceLanguage`, and API keys. Each endpoint is a function from the query, or from the id batch, to its decoded answer.
- `Promise.all` concurrency is not modelled. The queries are evaluated as a sequence, and their order is kept as `Promise.all` keeps it.
- The text-generation call and `JSON.parse` of its text are one parameter, `expand`. It yields a list of queries or fails. A parsed value that is not an array of strings is not distinguished from a failure.
- `cosineSimilarity` (src/lib/cosineSimilarity.ts) is not modelled; it is a parameter that returns a real number for any two vectors.
- Ranking.Pair: assumes `cosineSimilarity` never throws. That includes `undefined` vectors, which the `!` at feed.ts:49 does not stop when `embeddings.embeddings` or an entry's `values` is missing, and vectors of different lengths. Such a call is scored here, not turned into a failure.
- Ranking.Rank: fails only for a short embeddings list, for the reason given for Ranking.Pair.
- Feed.FeedFails: counts a failing `cosineSimilarity` as no failure, for the reason given for Ranking.Pair.
- Float precision is not modelled. Scores are real numbers without NaN, so the comparator is a total order. Durations are unbounded naturals, so `Number` does not lose precision on very long digit runs.
- The `/youtube`, `/embedding` and `/embed` routes, `src/index.ts`, the lazy client creation in `src/lib/ai.ts` and at feed.ts:23-25, `console.log`, and `c.json` are not modelled. None of them affects the feed's contents.
- API records are taken as their TypeScript types declare them. Fields the types make mandatory, such as `id.videoId`, are always present.
- The handler as written returns every scored video. Videos found by two queries appear twice. There is no top-K cut, recency weighting or similarity threshold; the comment at feed.ts:63 announces a filter that is not implemented.
- Chunking.Chunk: requires a positive size. With size 0 the source loop never ends, and its only callers pass 50.
- Template.FillTemplateInserts: requires a prompt without `$`. For other prompts `$` patterns expand, as Template.FillTemplateExpandsDollar shows.
