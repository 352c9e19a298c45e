# fivem-tracker-v2, modelled in Dafny

fivem-tracker-v2 tracks the German FiveM servers.

A sync job reads the FiveM master list and keeps only the FiveM servers. It
turns each server's announced variables into a typed server view, and keeps
the servers in locale `de-DE`. It sanitizes their texts and sorts them by
player count. It then splits them into new and known servers and writes them
in batches of 5000, adding one history sample per server. A second job
deletes samples older than a week, and then deletes every server with no
sample in the last three days.

A list endpoint serves one page of the servers of a country, most players
first, each with its rank. An icon service caches the paths of the server
icons. Two front-end helpers render the game's colour codes (`^0` … `^9`):
one as coloured segments, the other as HTML.

The project models these parts and proves what they promise. The modules are:

- `FivemService`: the frame filter, `sanitizeString`, `getServers` and
  `deleteOldServers`.
- `ServerStore`: the database, as a map of server rows plus a sequence of
  history samples, changed by a list of calls.
- `Transformers`: the variable transformer and the three server-view
  constructors.
- `Icons`: the icon cache, as the class `IconService`.
- `ServerListRoute`: the list endpoint.
- `ServerListItem`, `ServerColumns` and `ColorCodes`: colour-code rendering
  and the colour table.
- `Seqs`, `Strings` and `Wrappers`: generic helpers.

Some parts are parameters of the model because their code is not modelled:

- the decoded stream frames;
- the clock readings;
- which store calls are rejected;
- what the filesystem and the network answer;
- whether the list queries fail;
- the helpers of `serverUtils` and `Intl.getCanonicalLocales`, passed in as a
  `ServerUtils` value of functions.

Every property holds whatever these parameters are.

The stream is modelled by the frames it delivered before the reader
signalled its end. A failed request or an empty body is caught in
`fetchServers` (src/services/fivem.service.ts:81-96), and `getServers` then
goes on with no servers: that is the case of no frames.

`localeCountry` is the last hyphen-separated part of the canonical locale,
and it is not upper-cased (src/utils/transformers.ts:226).

## Model

| member | source | states |
|---|---|---|
| FivemService.GameNameValue | src/services/fivem.service.ts:11-17 | every game has a non-empty name: `gta5`, `rdr3`, `ny`, `launcher` |
| FivemService.GameNameValueInjective | src/services/fivem.service.ts:11-17 | two games have the same name exactly when they are the same game |
| FivemService.ServerGameName | src/services/fivem.service.ts:38 | a frame that announces a non-empty `gamename` has that game name; a frame without data or variables, or with an empty or missing `gamename`, counts as `gta5`; the name is never empty |
| FivemService.AcceptsUnnamedAsFiveM | src/services/fivem.service.ts:37-40 | a frame with an end point and data but no game name is handed on exactly when FiveM is asked for |
| FivemService.Accepted | src/services/fivem.service.ts:37-51 | every frame kept has an end point, data and the game asked for |
| FivemService.AcceptedViewsAreViews | src/services/fivem.service.ts:32-55 | reading frame by frame gives the views of the accepted frames, in stream order |
| FivemService.ReadBodyToServers | src/services/fivem.service.ts:19-72 | the loop over the frames hands on exactly the views of the accepted frames, in order |
| FivemService.ReadBodyAccepts | src/services/fivem.service.ts:37-51 | a frame is handed on exactly when it is in the stream, has a non-empty end point and data, and announces the game asked for (default `gta5`) |
| FivemService.Cleaned | src/services/fivem.service.ts:106 | once non-printable characters are removed and the text trimmed, only `\x20`…`\x7E` is left, and it neither starts nor ends with a space |
| FivemService.Sanitize | src/services/fivem.service.ts:104-108 | the result is printable ASCII of at most 255 characters and does not start with a space; it is a prefix of the cleaned text, equal to it when that has at most 255 characters and 255 long otherwise |
| FivemService.SanitizeClean | src/services/fivem.service.ts:104-108 | text that is printable, needs no trimming and has at most 255 characters is left unchanged |
| FivemService.SanitizeMovesTrailingSpace | src/services/fivem.service.ts:106-107 | no text that ends in a space is its own sanitized form |
| FivemService.SanitizeNotIdempotent | src/services/fivem.service.ts:106-107 | cutting to 255 characters after trimming can leave a trailing space, so sanitizing twice can differ from sanitizing once |
| FivemService.ToServerData | src/services/fivem.service.ts:170-193 | every text column of the row fits its column; id and locale are the sanitized id and locale; missing player and upvote counts become 0; missing `private` and `scriptHookAllowed` become false |
| FivemService.ToServerDataTexts | src/services/fivem.service.ts:179-192 | each other text column is the sanitized text of its field, with a missing optional field sanitized as the empty string |
| FivemService.ToServerDataCounts | src/services/fivem.service.ts:171-177 | missing burst power, max players and icon version are stored as 0; present ones are stored as given |
| FivemService.CollectServers | src/services/fivem.service.ts:166-199 | the callback pushes the row of every `de-DE` view, in order, and of no other view |
| FivemService.CollectedAreGerman | src/services/fivem.service.ts:168-180 | every collected row has locale `de-DE` |
| FivemService.ExistingIds | src/services/fivem.service.ts:204-211 | an id exists exactly when it is in the table and is the id of a fetched row |
| FivemService.PartitionRows | src/services/fivem.service.ts:213-214 | a row is in `toUpdate` exactly when its id exists, and in `toCreate` exactly when it does not; the two lists together are a permutation of the rows |
| Seqs.FilterEmbeds | src/services/fivem.service.ts:213-214 | `s.filter(p)` is the subsequence of `s` at the increasing positions whose element passes `p` |
| FivemService.PartitionOrder | src/services/fivem.service.ts:213-214 | each list keeps the rows in their input order: it is the subsequence of the rows at exactly the positions whose id is (for `toUpdate`) or is not (for `toCreate`) in the table |
| FivemService.CreateOps | src/services/fivem.service.ts:225-227 | one `createMany` per batch, holding that batch |
| FivemService.UpdateOps | src/services/fivem.service.ts:245-252 | one `update` per row, in order |
| FivemService.HistoryOps | src/services/fivem.service.ts:229-263 | one history `createMany` per batch, holding that batch's samples |
| FivemService.SamplesOf | src/services/fivem.service.ts:229-237 | one sample per row of the batch |
| FivemService.BatchCreates | src/services/fivem.service.ts:222-239 | the first loop issues the create call and the history call of each chunk of 5000 new rows, in order |
| FivemService.BatchUpdates | src/services/fivem.service.ts:241-264 | the second loop issues one update per known row and one history call per chunk of 5000 |
| FivemService.PlanBatches | src/services/fivem.service.ts:216-264 | both loops together: the creates, the updates, and the history calls of the create chunks followed by those of the update chunks |
| FivemService.BatchShape | src/services/fivem.service.ts:216-264 | there are ceil(n/5000) create calls and as many history calls as chunks; each call holds between 1 and 5000 rows or samples; there is one update per known row |
| FivemService.BatchesCover | src/services/fivem.service.ts:222-264 | the chunks of each kind concatenate back to that kind's rows, in order |
| FivemService.SyncSamples | src/services/fivem.service.ts:229-263 | with every call fulfilled, the sync adds exactly the samples of the new rows, then those of the known rows |
| FivemService.SyncSampleRows | src/services/fivem.service.ts:229-263 | there are as many samples as fetched rows; they all carry the sync's timestamp; they are exactly the rows' ids with their player counts |
| FivemService.SyncServers | src/services/fivem.service.ts:222-268 | with every call fulfilled, the server table ends up as the new rows inserted and then the known rows updated; the history calls leave the table alone |
| FivemService.SyncStoresRows | src/services/fivem.service.ts:204-268 | with every call fulfilled and the fetched ids distinct, every fetched row is stored as fetched and every other server is left as it was |
| FivemService.Fetched | src/services/fivem.service.ts:166-202 | the rows the sync writes are all the German rows, none dropped, largest player count first |
| FivemService.SortByPlayers | src/services/fivem.service.ts:202 | the rows are sorted by player count, largest first; the `.slice(0, 10000)` copy is discarded, so no row is dropped |
| FivemService.GetServers | src/services/fivem.service.ts:160-275 | the calls issued are exactly the planned ones for the fetched rows and the table's existing ids, and the store ends up as those calls, in order, make it |
| FivemService.SyncKeepsServers | src/services/fivem.service.ts:266-268 | whatever calls the store rejects, a sync removes no server |
| FivemService.KeptHistory | src/services/fivem.service.ts:282-288 | a sample survives exactly when it is no older than the cutoff; a sample right at the cutoff survives |
| FivemService.DeleteOldServers | src/services/fivem.service.ts:277-330 | the store ends up as `Retained`: first the samples older than a week go, then the servers without a sample in the last three days, with their samples |
| FivemService.PruneKeepsRecent | src/services/fivem.service.ts:279-307 | pruning the week-old samples does not change which servers count as quiet |
| FivemService.RetainedIff | src/services/fivem.service.ts:279-324 | a server survives exactly when it has a sample in the three days before the second clock reading; a sample survives exactly when it is no older than a week and its server survives |
| FivemService.RetainedRows | src/services/fivem.service.ts:314-324 | a surviving server keeps its row unchanged |
| FivemService.RetainedExtremes | src/services/fivem.service.ts:294-324 | with no history every server goes; with a recent sample of every server none goes |
| ServerStore.InsertNew | src/services/fivem.service.ts:226 | `createMany` with `skipDuplicates` adds the ids of the rows and never changes an existing server |
| ServerStore.InsertNewAppend | src/services/fivem.service.ts:222-239 | inserting batch after batch is inserting their concatenation |
| ServerStore.InsertNewValues | src/services/fivem.service.ts:222-239 | rows with fresh, distinct ids are all stored as they are |
| ServerStore.UpdateAll | src/services/fivem.service.ts:245-252 | updating by id never adds or removes a server |
| ServerStore.UpdateAllValues | src/services/fivem.service.ts:245-252 | updating rows with known, distinct ids stores each row and leaves every other server as it was |
| ServerStore.RunKeepsServers | src/services/fivem.service.ts:266-268 | no call, fulfilled or rejected, removes a server |
| ServerStore.RunAppend | src/services/fivem.service.ts:266-268 | with every call fulfilled, running two lists of calls one after the other is running their concatenation |
| ServerStore.RunHistory | src/services/fivem.service.ts:229-263 | with every call fulfilled, the calls append exactly their samples to the history |
| ServerStore.Stale | src/services/fivem.service.ts:294-307 | a server is stale exactly when no sample of it is at or after the cutoff |
| ServerStore.Store.Execute | src/services/fivem.service.ts:266-268 | the calls run in order; a rejected call changes nothing |
| ServerStore.Store.DeleteHistoryBefore | src/services/fivem.service.ts:282-288 | exactly the samples older than the cutoff go; the servers are untouched |
| ServerStore.Store.StaleServers | src/services/fivem.service.ts:294-307 | the query answers with exactly the stale servers |
| ServerStore.Store.DeleteServers | src/services/fivem.service.ts:318-324 | exactly the given servers go, and their samples with them |
| Transformers.ArrayAt | src/utils/transformers.ts:14-20 | an element is found exactly when the index lies in `-len .. len-1`; a negative index counts from the end |
| Transformers.ArrayAtFromEnd | src/utils/transformers.ts:14-20 | index `-k` and index `len-k` name the same element |
| Transformers.CanonicalLocale | src/utils/transformers.ts:293-298 | underscores become hyphens before canonicalising; a locale that cannot be canonicalised becomes `root-AQ` |
| Transformers.LocaleCountry | src/utils/transformers.ts:226 | the country is never empty and holds no hyphen; it is `??` or a suffix of the locale |
| Transformers.LocaleCountryAfterHyphen | src/utils/transformers.ts:226 | the country is the text after the last hyphen, or `??` when that is empty |
| Transformers.LocaleCountryNoHyphen | src/utils/transformers.ts:226 | a locale without a hyphen is its own country, or `??` if it is empty |
| Transformers.DefaultLocaleCountry | src/utils/transformers.ts:3-4 | the default locale `root-AQ` names the default country `AQ` |
| Transformers.NormalizeTag | src/utils/transformers.ts:234 | a normalised tag has no upper-case letter and neither starts nor ends with whitespace |
| Transformers.ParseTags | src/utils/transformers.ts:229-238 | the tags contain no duplicates; a tag is in the list exactly when it is a normalised part of the value that the filter accepts; there are no more tags than parts |
| Transformers.ParseTagsOrder | src/utils/transformers.ts:229-238 | the tags come in the order in which each first appears among the normalised parts |
| Seqs.DedupOrder | src/utils/transformers.ts:229-238 | `[...new Set(s)]` keeps the elements in the order of their first occurrences in `s` |
| Transformers.ConversionsOf | src/utils/transformers.ts:225-237 | the loop converts a locale with `getCanonicalLocale`, derives a country from it, and parses tags |
| Transformers.RouteOf | src/utils/transformers.ts:195-284 | a key is dropped, passed through, or routed to the field whose key it is |
| Transformers.RouteOfClassifies | src/utils/transformers.ts:192-287 | a key is passed through exactly when it is neither a field key nor dropped by name or by pattern; it is dropped exactly when it is not a field key and either is listed or contains (in lower case) `banner_`, `sv_project`, `version` or `uuid` |
| Transformers.RouteOfKeyOf | src/utils/transformers.ts:195-266 | each field is set by its own key and by no other |
| Transformers.ProcessedVars | src/utils/transformers.ts:181-190 | without variables the view is exactly `{ projectName: '' }`; `variables` is present exactly when variables are given |
| Transformers.ProcessServerDataVariables | src/utils/transformers.ts:181-290 | the loop over the entries builds the view `ProcessedVars` describes |
| Transformers.ProcessedCopy | src/utils/transformers.ts:204-266 | license key token, game name, activity feed, premium, both banners and pure level hold their key's value, or are absent without it |
| Transformers.ProcessedScriptHook | src/utils/transformers.ts:208-211 | `scriptHookAllowed` is true exactly when its value is `true`, and absent without a value |
| Transformers.ProcessedCanReview | src/utils/transformers.ts:248-251 | `canReview` is true exactly when its value is not empty, and absent without a value |
| Transformers.ProcessedOnesync | src/utils/transformers.ts:252-255 | `onesyncEnabled` is true exactly when its value is `true`, and absent without a value |
| Transformers.ProcessedNames | src/utils/transformers.ts:196-203 | the project name is the filtered `sv_projectName`, or `''` without one; the description is the filtered `sv_projectDesc` |
| Transformers.ProcessedLocale | src/utils/transformers.ts:224-227 | the locale is the canonical form of the `locale` value |
| Transformers.ProcessedCountry | src/utils/transformers.ts:224-227 | the country is set together with the locale and is the one the locale names |
| Transformers.ProcessedTags | src/utils/transformers.ts:229-238 | the tags are the parsed `tags` value |
| Transformers.ProcessedEnforceGameBuild | src/utils/transformers.ts:256-261 | an empty `sv_enforceGameBuild` sets nothing; a non-empty one is kept as it is |
| Transformers.ProcessedVariables | src/utils/transformers.ts:192-287 | `variables` holds a key exactly when the key is present and passed through, with that key's value; recognised and dropped keys never appear there |
| Transformers.FakeHostname | src/utils/transformers.ts:32 | the placeholder hostname contains the address |
| Transformers.AddressView | src/utils/transformers.ts:31-43 | the id is the address; the hostname and the project name are the placeholder; the locale is `root-AQ` with its own country; there are no variables |
| Transformers.Assign | src/utils/transformers.ts:46-65 | the project name always comes from the variables; the locale and country come from them when they set one; id, joinId, details level, hostname and raw variables stay those of the record |
| Transformers.MasterListView | src/utils/transformers.ts:45-76 | id and joinId are the joinId; the counts default to 0; raw variables default to empty; the icon version is copied only when the data has one; upvotes are 0 whenever the project name is empty |
| Transformers.MasterListFullView | src/utils/transformers.ts:78-125 | as the master-list view; in addition, `private` is the flag or a private end point, the support status defaults to `supported`, and `offline` is set only for a fallback |
| Transformers.HistoryView | src/utils/transformers.ts:127-140 | the id is the address; the hostname, raw variables and icon URL come from the history record; the project name is the processed one |
| Transformers.UpvoteWithoutProjectName | src/utils/transformers.ts:71-118 | without `sv_projectName` the project name is `''` and both master-list views have 0 upvotes |
| Transformers.HistoryWithoutProjectName | src/utils/transformers.ts:127-139 | without `sv_projectName` the history view's project name is `''`, so the hostname no longer shows through |
| Transformers.ProcessedLocaleCountry | src/utils/transformers.ts:224-227 | the processed variables have a country exactly when they have a locale, and it is that locale's country |
| Transformers.ViewLocaleCountry | src/utils/transformers.ts:31-140 | every constructor yields a country that its locale names, whether the locale is the default or came from the variables |
| Transformers.ViewEnforceGameBuild | src/utils/transformers.ts:256-261 | in both master-list views, `enforceGameBuild` is the raw `sv_enforceGameBuild`, empty or not |
| Transformers.SearchableNameJoin | src/utils/transformers.ts:142-148 | with a non-empty description, the searchable name normalises the project name and the description each stripped of its own colour codes, joined by a space: no code spans the join |
| Transformers.SortableName | src/utils/transformers.ts:150-155 | the sortable name is no longer than the input, holds only `[a-z0-9]`, and never starts with a digit |
| Transformers.SortableNameIdempotent | src/utils/transformers.ts:150-155 | the sortable name of a sortable name is itself |
| Icons.VersionText | src/services/icon-service.ts:30 | a falsy version (`null`, `0`, `''`) reads `default`; a non-empty text version reads as itself |
| Icons.PublicPath | src/services/icon-service.ts:30-32 | the public path starts with `/api/icon/<serverId>_` and is never the placeholder |
| Icons.Resolve | src/services/icon-service.ts:29-63 | a cache hit answers the cached path with no I/O; a miss with the file present memoises the public path; the placeholder never changes the cache; any other answer is the cache's entry afterwards |
| Icons.ResolveGrows | src/services/icon-service.ts:35-61 | the cache only grows: no entry is overwritten or removed, at most this server's entry is added, and entries stay public paths of their servers |
| Icons.ResolveMiss | src/services/icon-service.ts:39-61 | a miss without the file checks the file, then fetches; it writes only after an ok answer; it answers the public path exactly when the fetch was ok and the write did not throw, and the placeholder otherwise |
| Icons.ResolveCache | src/services/icon-service.ts:35-61 | a lookup memoises its answer exactly when it was a miss and the answer is not the placeholder |
| Icons.SecondLookupHits | src/services/icon-service.ts:35-42 | after a non-placeholder answer, the next lookup of that server does no I/O and returns the same path, for any version and any I/O outcome |
| Icons.ResolveAllGrows | src/services/icon-service.ts:65-70 | lookups one after the other never overwrite or remove an entry, and keep every entry a public path |
| Icons.ResolveAllKeys | src/services/icon-service.ts:65-70 | lookups one after the other add entries only for the servers looked up |
| Icons.SettleGrows | src/services/icon-service.ts:65-70 | preloading at once keeps every existing entry and keeps every entry a public path |
| Icons.SettleKeys | src/services/icon-service.ts:65-70 | preloading at once adds entries only for the servers it looks up |
| Icons.SettleSequential | src/services/icon-service.ts:65-70 | when no server id repeats, preloading at once leaves the same cache as looking the servers up one after the other |
| Icons.SettleDuplicate | src/services/icon-service.ts:65-69 | a server listed twice with two versions ends up memoised with the second path when preloaded at once, but with the first when looked up one after the other |
| Icons.SettleFetchesTwice | src/services/icon-service.ts:29-69 | a server listed twice whose icon is not on disk is fetched and written twice when preloaded at once, while the second of two lookups one after the other makes no call |
| Icons.IconService.constructor | src/services/icon-service.ts:8-12 | the cache starts empty |
| Icons.IconService.GetIconPath | src/services/icon-service.ts:29-63 | the answer, the new cache and the I/O calls are those of `Resolve` on the old cache |
| Icons.IconService.PreloadIcons | src/services/icon-service.ts:65-70 | one lookup per server, all started against the cache as it was; the new cache is `Settle` of the old one, and the I/O calls are those of every lookup made against the old cache, lookup by lookup |
| ServerListRoute.StringOr | src/app/api/servers/list/route.ts:6-9 | a given, non-empty parameter is used; an absent or empty one takes the fallback |
| ServerListRoute.ReadParams | src/app/api/servers/list/route.ts:5-9 | the defaults are locale `DE`, page 1, page size 50 and an empty search; given numbers are used as they are |
| ServerListRoute.Skip | src/app/api/servers/list/route.ts:12 | `skip = (page - 1) * pageSize`, and 0 on the first page |
| ServerListRoute.WhereClause | src/app/api/servers/list/route.ts:15-34 | the clause asks for the country and for more than 0 players, and has a search part exactly when the search is not empty |
| ServerListRoute.MatchesIff | src/app/api/servers/list/route.ts:15-34 | a row matches exactly when it is of the country, has players, and either the search is empty or its project name or description contains the search |
| ServerListRoute.Ordered | src/app/api/servers/list/route.ts:37-41 | the ordering holds exactly the matching rows, most players first |
| ServerListRoute.Window | src/app/api/servers/list/route.ts:42-43 | the page is the rows from offset `skip`, at most `take` of them, in order |
| ServerListRoute.Ranked | src/app/api/servers/list/route.ts:59-62 | row `i` of the page gets rank `skip + i + 1` |
| ServerListRoute.Answer | src/app/api/servers/list/route.ts:36-69 | `totalCount` counts every matching row; `totalPages` is ceil(totalCount / pageSize); the servers are the page of the ordering, ranked |
| ServerListRoute.List | src/app/api/servers/list/route.ts:4-83 | a failed query answers no servers, count 0 and 0 pages for the page asked; otherwise the answer is `Answer` |
| ServerListRoute.OrderedMatch | src/app/api/servers/list/route.ts:15-41 | every row of the ordering is of the country and has players |
| ServerListRoute.ListedMatch | src/app/api/servers/list/route.ts:36-62 | every listed server is of the country and has players, and the page is in non-increasing player order |
| ServerListRoute.PageWithinTotal | src/app/api/servers/list/route.ts:42-68 | the page is non-empty exactly when its number is at most `totalPages`, and full unless it is the last |
| ServerListRoute.PageArithmetic | src/app/api/servers/list/route.ts:42-68 | a page of a given size has rows exactly when its number is at most ceil(n / size); below the last page it is full |
| ServerListRoute.RankIsPosition | src/app/api/servers/list/route.ts:59-62 | the row at position `j` of the ordering is listed with rank `j + 1` on the page that holds it |
| ServerListItem.SplitPartsShape | src/components/ServerListItem.tsx:30 | the parts join back to the text; every part is non-empty and is either one code or text containing no code |
| ServerListItem.PartsColorsAgree | src/components/ServerListItem.tsx:30-46 | colouring part by part gives the same result as colouring character by character |
| ServerListItem.CharColorsChars | src/components/ServerListItem.tsx:30-46 | the coloured characters are the text with every code removed |
| ServerListItem.CharColorsAppend | src/components/ServerListItem.tsx:35-46 | colouring `s + t` is colouring `s` and then `t` in the colour `s` leaves in effect |
| ServerListItem.CodesInARow | src/components/ServerListItem.tsx:35-39 | a lone code emits nothing; of two codes in a row only the last colours what follows |
| ServerListItem.TrailingCodeEmitsNothing | src/components/ServerListItem.tsx:35-39 | a code at the end of a text adds nothing |
| ServerListItem.ParseColoredText | src/components/ServerListItem.tsx:28-49 | no segment is empty or holds a code; each character is drawn in the colour of the last code before it, or white without one; the segment texts concatenate to the text without its codes |
| ServerColumns.OpenTagColor | src/components/list/servers/columns.tsx:16-20 | the code `^d` becomes `<span style='color: C'>` with `C` the table's colour for `^d`, never `inherit` |
| ServerColumns.OpenTagCounts | src/components/list/servers/columns.tsx:19 | every opening tag holds one `<` and no `/` |
| ServerColumns.FormatTagCounts | src/components/list/servers/columns.tsx:15-20 | the cell holds one opening tag per code and exactly one closing tag: it has one more `<` per code plus one, and one more `/` |
| ServerColumns.ReplaceCodesCounts | src/components/list/servers/columns.tsx:16-19 | the replacement adds one `<` per code and no `/` |
| ServerColumns.ReplaceCodesByParts | src/components/list/servers/columns.tsx:16-19 | the replacement turns each code into its tag and copies every other part, including a `^` not followed by a digit, unchanged and in order |
| ServerColumns.FormatProjectNameByParts | src/components/list/servers/columns.tsx:15-20 | the cell is the rendered parts followed by one `</span>` |
| ServerColumns.FormatWithoutCodes | src/components/list/servers/columns.tsx:15-20 | a name without codes is shown as it is, followed by `</span>` |
| ServerColumns.ReplaceCodesNoCode | src/components/list/servers/columns.tsx:16-19 | text without codes is left as it is |
| ServerColumns.DisplayCountry | src/components/list/servers/columns.tsx:49 | a missing or empty country shows as `us`; any other is shown as it is |
| ColorCodes.ColorMapShape | src/lib/utils.ts:8-19 | the table has only codes as keys and `#RRGGBB` colours as values; `^0` and `^7` are both white |
| ColorCodes.ColorMapKeys | src/lib/utils.ts:8-19 | the keys are exactly the ten codes `^0` … `^9` |
| ColorCodes.CodeColorInMap | src/components/ServerListItem.tsx:15-26 | the colour for each digit is the table's entry for its code |
| ColorCodes.CodeColorHex | src/components/list/servers/columns.tsx:19 | every code selects a `#RRGGBB` colour, never `inherit` |
| ColorCodes.StripCodes | src/utils/transformers.ts:147 | removing the codes never lengthens the text |
| ColorCodes.StripCodesAppend | src/utils/transformers.ts:147 | removing the codes from a concatenation removes them from each part, when the second part does not begin with a digit |
| ColorCodes.StripCodesJoin | src/utils/transformers.ts:147 | two texts joined by a space lose their codes separately, and the space stays |
| ColorCodes.StripCodesLength | src/utils/transformers.ts:147 | removing the codes shortens the text by exactly two characters per code |
| ColorCodes.StripCodesNoCode | src/utils/transformers.ts:147 | a text without codes is left as it is |

## Left out

- Stream reading and decoding are not modelled: `FrameReader`, `decodeServer`, `fetcher` and `Deferred`. Their code is not part of this model, so the decoded frames are an input.
- `fetchServers` and the HTTP request are not modelled. The model covers only what the shown code implies: a failed request or an empty body is caught, and the sync goes on with no frames.
- What an error in the middle of the stream does is not modelled: it depends on `FrameReader`, whose code is not part of this model. The read is not awaited, and only the reader's end callback resolves the wait (src/services/fivem.service.ts:56-61), so such an error may leave the run waiting and nothing synced. The model takes the frames delivered before the reader signalled the end.
- The helpers of src/utils/serverUtils.ts and `Intl.getCanonicalLocales` are not modelled. They are the fields of `ServerUtils`, so no property depends on them.
- Database semantics are abstract:
  - `contains` is a plain case-sensitive substring test.
  - Ties in `orderBy` keep the table's order, as a stable sort.
  - `skipDuplicates` skips a row whose id is taken, including a duplicate inside one batch.
  - History samples have no unique key, so none is ever skipped.
  - The cascade delete of a server's samples is written into `DeleteServers`; the rest of the schema is not modelled.
- Concurrency is not modelled:
  - The `Promise.allSettled` groups of `getServers` run their calls in issue order, and any call may be rejected on its own (the `rejected` set).
  - `preloadIcons` starts every lookup against the same cache, and the lookups finish in list order. Other completion orders are not modelled.
  - The calls of concurrent lookups are listed lookup by lookup (`Icons.SettleCalls`); how the calls of different lookups interleave is not modelled. `Icons.SettleFetchesTwice` shows the duplicate fetch that two concurrent misses of one server make.
- Clocks are integer milliseconds, given as parameters. `setDate(getDate() - 7)` is modelled as exactly seven days, so daylight-saving shifts are not modelled. `performance.now` timings and all logging are not modelled.
- The icon directory is not modelled: its path and its creation when missing (src/services/icon-service.ts:4, 21-27). Filesystem and network answers are the `Outcome` of each lookup. The singleton `getInstance` is not modelled; the class is constructed directly.
- `ServerListRoute.Skip`, `ServerListRoute.Answer`, `ServerListRoute.List` and the page lemmas require page ≥ 1 and page size ≥ 1. `parseInt` can give `NaN`, 0 or a negative page, and those inputs are not modelled.
- JavaScript quirks are not modelled:
  - `colorMap[part]` is truthy for `Object.prototype` keys such as `constructor`; the table holds only the ten codes.
  - A `null` project name would render as `undefined</span>`; project names are strings.
  - `sanitizeString` returns a non-string input unchanged (src/services/fivem.service.ts:105); inputs are strings.
- `Object.entries(vars)` is modelled as a sequence of key-value pairs in the object's order (`Entries`). `vars[key]` is the value of the last entry with that key. `Transformers.ProcessedEnforceGameBuild` and `Transformers.ViewEnforceGameBuild` require distinct keys, as an object has.
- `toLowerCase` is ASCII-only; JavaScript's case mapping of other letters is not modelled.
- `players`, `resources`, owner fields, `connectEndPoints` and the support status are carried as opaque values.
- The `try`/`catch` around one server in `getServers` does not change the model, since `ToServerData` cannot throw on string inputs. The outer `try`/`catch` catches only failures of the `findMany` query, and those are not modelled: that query is modelled as always answering.
- React elements are modelled as `Segment` values; the element keys and the rest of the markup are not modelled.
