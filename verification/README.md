# Viral-niche finder: response extraction and card display rules

A Dafny model of the two pieces of logic in a browser app that asks a
generative-AI service for "viral niche" suggestions and shows them as cards:

* **Tolerant JSON extraction and post-processing** (`services/geminiService.ts`).
  `extractJson` tries JSON.parse on the whole reply, then on the body of the
  first ```` ```json ```` fence, then on the widest `[ … { … } … ]` span, and throws
  "Could not parse JSON response from Gemini." when all three fail.
  `searchViralNiches` defaults a missing or empty reply to `"[]"`. It turns the
  grounding chunks of the reply into sources. It gives every parsed item an id
  `niche-<timestamp>-<index>` and gives the sources to the first item only.
  `generateVideoStrategy` returns the extracted value as it is.
* **Display classification** (`components/NicheCard.tsx`): the trend-score
  colour bands, the competition-level colour, the "Dados Reais"/"AI Analysis"
  badge and the staggered animation delay.

Modules, one per concern:

| file | module | contents |
|---|---|---|
| results.dfy | `Results` | `Option`, `Result` |
| text.dfy | `Text` | JavaScript's `\s`, substring search, decimal rendering of integers and its inverse |
| json.dfy | `Json` | parsed JSON values, the abstract parser type, object spread `{...v}` |
| extract.dfy | `Extract` | both regular expressions, declaratively and as finders; the fallback chain |
| types.dfy | `Types` | `Source`, `NicheResult`, competition levels, region and category enums |
| prompts.dfy | `Prompts` | query fallback and the two prompt templates |
| service.dfy | `Service` | response text default, sources, ids, tagging, the two service calls |
| card.dfy | `NicheCard` | tones, badge, delay, and the badge of a search's cards |

How the model is set up:

* JSON.parse is a parameter `parse: string -> Option<Json>`. `None` stands for
  the SyntaxError. Every property holds for every parser. Where a property
  needs `"[]"` to parse as the empty array, it says so in a `requires`.
* Each regular expression is written twice. The first form is a predicate over
  index tuples: the set of matches. The second adds a selection predicate: the
  one match JavaScript's backtracking reports (leftmost start, greedy `\s*`,
  then the lazy or greedy body). The executable finders are proved to return
  exactly that match, and nothing when no match exists.
* `Date.now()` is read inside the `map` callback, once per item. It is a
  parameter `now: nat -> nat`: `now(i)` is the reading taken for item `i`.
  Ids are proved pairwise distinct whatever the clock returns.
* Sources are not deduplicated: a repeated web chunk gives a repeated source
  (`ToSourcesSingle`).
* A whitespace-only reply is not defaulted, so it fails to extract
  (`SearchWhitespaceTextFails`).

## Model

| member | source | states |
|---|---|---|
| Extract.FindFenceSelects | services/geminiService.ts:19 | the fence finder returns exactly the match `/```json\s*([\s\S]*?)\s*```/` reports: leftmost "```json", longest leading whitespace, then shortest group; it returns nothing iff the regex has no match at all |
| Extract.FindFence | services/geminiService.ts:19 | any hit the fence finder returns is a match of the fence regex: "```json" at its start, whitespace, the group, whitespace, then "```"; that it is the reported match is FindFenceSelects |
| Extract.FenceCaptureShape | services/geminiService.ts:19 | the reported group has no whitespace at either end and contains no "```": the lazy group ends where whitespace before the first closing fence begins |
| Extract.FindArraySelects | services/geminiService.ts:28 | the span finder returns exactly the match `/\[\s*\{[\s\S]*\}\s*\]/` reports: leftmost `[`-whitespace-`{`, body reaching the last possible `}`-whitespace-`]`; nothing iff no match exists |
| Extract.FindArray | services/geminiService.ts:28 | any hit the span finder returns is a match of the array regex: `[`, whitespace, `{`, a body, `}`, whitespace, `]`; that it is the reported match is FindArraySelects |
| Extract.ExtractJson | services/geminiService.ts:13-38 | a whole-text parse wins outright; a failure is always the one error message; any value returned is the parse of a contiguous piece of the text, so JSON is located, never repaired |
| Extract.FenceStage | services/geminiService.ts:19-26 | a value from stage 2 is the parse of a non-empty piece of the text that neither starts nor ends with whitespace and contains no "```" |
| Extract.ArrayStage | services/geminiService.ts:28-35 | a value from stage 3 is the parse of a piece of the text that starts with `[` and ends with `]` |
| Extract.FenceStageMeaning | services/geminiService.ts:19-26 | stage 2 yields the parse of the reported non-empty capture, and yields nothing exactly when there is no match, the capture is empty (falsy `match[1]`) or it fails to parse |
| Extract.ArrayStageMeaning | services/geminiService.ts:28-35 | stage 3 yields the parse of the reported span, and nothing exactly when there is no match or the span fails to parse |
| Extract.ExtractFromFence | services/geminiService.ts:14-22 | when the whole text does not parse, a non-empty fenced capture that parses is the result and stage 3 is not consulted |
| Extract.ExtractFromArray | services/geminiService.ts:20-36 | when stage 2 falls through, the reported array span decides: its parse is the result, or the call throws |
| Extract.ExtractFailsIff | services/geminiService.ts:13-37 | extractJson throws if and only if all three stages come up empty |
| Text.DecimalRoundTrip | services/geminiService.ts:100 | the decimal text a template literal gives a non-negative integer reads back as that integer |
| Json.IndexMap | services/geminiService.ts:99 | spreading an array or string copies each element under its index name, and nothing else |
| Json.Spread | services/geminiService.ts:99 | spreading an object copies its members; an array or a string contributes its elements or characters under their index names, which are digit strings; null, booleans and numbers contribute nothing |
| Prompts.EffectiveQuery | services/geminiService.ts:46 | a present non-empty custom query is used, otherwise the category's value; the query is never empty |
| Prompts.NichePrompt | services/geminiService.ts:48-77 | the region's value and the effective query appear verbatim at fixed offsets, in that order, and the prompt contains the demand for a bare JSON array |
| Prompts.VideoPrompt | services/geminiService.ts:112-126 | the niche name and the region's value appear verbatim at fixed offsets, and the prompt contains the demand for a bare JSON array |
| Service.ResponseText | services/geminiService.ts:88 | a missing or empty reply becomes `"[]"`; any other reply, whitespace-only included, is kept; the result is never empty |
| Service.SourceOf | services/geminiService.ts:94 | a present non-empty title or URI is kept as it is; a missing or empty one falls back to 'Fonte Web' or '#'; neither field of a source is ever empty |
| Service.ToSources | services/geminiService.ts:93-95 | every chunk with a `web` field contributes its source, and every source comes from such a chunk; never more sources than chunks |
| Service.ToSourcesAppend | services/geminiService.ts:93-95 | the sources of concatenated chunk lists are the concatenated sources, so order is preserved |
| Service.ToSourcesSingle | services/geminiService.ts:94-95 | a chunk without `web` gives nothing; a repeated web chunk gives a repeated source, so there is no deduplication |
| Service.GroundingChunksOf | services/geminiService.ts:92 | the chunks are defined exactly when the reply has a non-empty candidate list whose first candidate has metadata with chunks, and are then that candidate's chunks; later candidates are never consulted |
| Service.SearchSources | services/geminiService.ts:92-95 | when the candidate/metadata/chunks chain is undefined the sources are `[]`, otherwise those of the chunks |
| Service.SearchSourcesNonEmpty | services/geminiService.ts:92-95 | a reply has sources exactly when its first candidate's grounding chunks include one with a `web` field |
| Service.SourcesRoundTrip | types.ts:1-4 | a source list stored in a record as JSON reads back as the same list |
| Service.NicheId | services/geminiService.ts:100 | an id is "niche-" followed only by digits and hyphens; its round trip and distinctness are NicheIdRoundTrip and NicheIdsDistinct |
| Service.NicheIdRoundTrip | services/geminiService.ts:100 | an id `niche-<ts>-<i>` splits back into exactly its timestamp and index |
| Service.NicheIdsDistinct | services/geminiService.ts:100 | ids of different indices differ, whatever timestamps were read |
| Service.Tag | services/geminiService.ts:98-102 | the record has the item's spread members plus `id` and `searchSources`; those two hold the given id and sources; every other member of the item is unchanged |
| Service.TagResults | services/geminiService.ts:98-102 | one record per parsed item, each an object carrying `id` and `searchSources` |
| Service.TagResultsKeepsFields | services/geminiService.ts:98-99 | removing the two injected members from record i gives back item i's other members, and for an object item without them, the item itself |
| Service.TagResultsIdsDistinct | services/geminiService.ts:100 | the ids of any two records of one search differ |
| Service.TagResultsIdReadsBack | services/geminiService.ts:100 | record i's id reads back as the clock reading for i and the index i |
| Service.TagResultsSources | services/geminiService.ts:101 | record 0 carries the reply's sources; every other record carries an empty list |
| Service.SearchViralNiches | services/geminiService.ts:88-102 | the search succeeds iff extraction yields a JSON array, with one record per element; an extraction failure surfaces as that error; a non-array value fails at `map` with its own error |
| Service.SearchEmptyText | services/geminiService.ts:88 | a missing or empty reply yields an empty list, not an error |
| Service.SearchWhitespaceTextFails | services/geminiService.ts:88-89 | a non-empty whitespace-only reply is not defaulted and, as JSON.parse rejects it, the search fails with the extraction error |
| Service.SearchTagsEveryElement | services/geminiService.ts:98-102 | record i of a successful search is element i of the parsed array, tagged with its own id and with the sources iff i is 0 |
| Service.GenerateVideoStrategy | services/geminiService.ts:134-135 | the video reply goes through the whole extraction chain: a non-empty reply is extracted as it is, a missing or empty one as `"[]"`; a reply that parses is returned as parsed, whatever its shape; failures carry the extraction error |
| Service.VideoStrategyFromFence | services/geminiService.ts:135 | a video reply that does not parse as a whole but holds a fenced block that parses yields that block's value |
| Service.AsNicheResult | types.ts:6-17 | a record read as a NicheResult carries the record's own id, name, trend score and competition level, and its sources exactly when the record has a `searchSources` member, decoded from it |
| Service.TaggedRecordReading | types.ts:6-17 | a record reads as a NicheResult exactly when its item's members have the declared kinds; it then keeps the item's fields, its id, and sources on record 0 only |
| NicheCard.ScoreColor | components/NicheCard.tsx:12-16 | green iff score ≥ 80, amber iff 50 ≤ score < 80, rose iff score < 50: the bands partition all scores |
| NicheCard.ScoreColorMonotone | components/NicheCard.tsx:12-16 | a higher score never gets a worse tone |
| NicheCard.CompetitionColor | components/NicheCard.tsx:18-22 | green iff 'Baixa', amber iff 'Média', rose for every other string including 'Alta' |
| NicheCard.CompetitionColorOfLevels | components/NicheCard.tsx:18-22 | the three declared levels map one-to-one onto green, amber, rose |
| NicheCard.LevelColor | components/NicheCard.tsx:18-22 | on the member as received, the comparisons are strict: green iff the string 'Baixa', amber iff the string 'Média', rose for a missing level and any non-string value |
| NicheCard.BadgeFor | components/NicheCard.tsx:51 | 'Dados Reais' iff the sources are present and non-empty, 'AI Analysis' otherwise |
| NicheCard.AnimationDelayMs | components/NicheCard.tsx:27 | card i's delay is a whole multiple of 100 ms from which i is recovered: cards fade in 100 ms apart in list order |
| NicheCard.Card | components/NicheCard.tsx:27-51 | a card's score tone, competition tone, badge text and delay each follow their own rule: green iff score ≥ 80, rose iff score < 50; the level's colour; 'Dados Reais' iff sources are present and non-empty; delay 100 ms per index |
| NicheCard.SearchBadges | components/NicheCard.tsx:51 | for every record of a successful search, whatever its other members: only record 0 can earn 'Dados Reais', and it does exactly when the reply had a grounding chunk with a `web` field |
| NicheCard.SearchBadgesTyped | components/NicheCard.tsx:51 | the same for a record that reads as a NicheResult, drawn as card i |
| NicheCard.SearchCompetitionColors | services/geminiService.ts:98-102 | tagging leaves the competition level alone: a record's competition colour is that of the level its parsed element carried |
| Types.EnumValuesDistinct | types.ts:26-47 | distinct regions, categories and competition levels carry distinct string values; category values are non-empty |

## Left out

- Client construction and the API-key lookup (services/geminiService.ts:5-10): configuration of an external service.
- The `generateContent` calls (services/geminiService.ts:80-86, 129-132): the network call is out of scope. Its reply is a parameter, and transport errors are not modelled.
- `console.error` logging in the `catch` blocks (services/geminiService.ts:24, 33, 104-107, 136-139), and the rethrow of transport errors: side effects only; the extraction and non-array errors those blocks rethrow are the `Err` results of the service calls.
- `Date.now()`: nondeterministic; it is the clock parameter `now`.
- The internals of JSON.parse: it is the abstract `Parser` parameter. JSON numbers are reals, so double rounding is not modelled.
- Json.Spread: the order of an object's keys is not modelled; objects are maps.
- Json.Spread: a string is spread per Unicode character. JavaScript spreads per UTF-16 code unit, so characters outside the Basic Multilingual Plane differ.
- Extract.FindFenceSelects and Extract.FindArraySelects: positions count Unicode characters, not UTF-16 code units. The delimiters are ASCII and `[\s\S]` matches anything either way, so the matched text is the same.
- Text.Decimal: integers of 10^21 and above render in exponent form in JavaScript. Indices and millisecond timestamps never get that large.
- NicheCard.CompetitionColor: takes a string; a missing or non-string level is covered by NicheCard.LevelColor, and `Card`'s body calls CompetitionColor because it reads a typed NicheResult.
- NicheCard.ScoreColor: takes a number. JavaScript's coercion of a non-number `trendScore` in `>=` is not modelled.
- Service.AsNicheResult: a `searchSources` member that is present but not an array is not read as a NicheResult. The service always writes an array.
- App.tsx, components/VideoStrategyModal.tsx, index.tsx and components/Icons.tsx: React state, effects, bootstrap and icon re-exports. The one display rule among them, at most three sources shown (App.tsx:179), is not modelled.
- The Tailwind class strings: they are the three tones `Green`, `Amber`, `Rose`. The score badge and the competition tag use different shades of each tone.
