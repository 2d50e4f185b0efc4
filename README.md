# Influencer platform: verified model of the catalog, listing, favorites and discover-page logic

This project models the core of a small influencer-discovery web app and proves properties of that model.

- **Catalog.** A catalog of influencer records is queried by
  - a free-text search over name and location;
  - optional topic, platform and gender criteria;
  - pagination.
- **Listing endpoint.** `GET /api/influencers` decides by the session, reads the criteria and the page from the query string, and answers with pages of twelve.
- **Favorites.** `/api/favorites` keeps a ledger of (user, influencer) favorites:
  - `GET` lists a user's favorites, newest first, joined to the catalog;
  - `POST` inserts one row behind a chain of guards, under a unique constraint on the pair.
- **Seeding.** The seed helpers
  - extract distinct platform and topic names;
  - map gender spellings to the `Gender` enum;
  - project falsy fields to null;
  - choose which join rows to create.
- **Browser side.**
  - The pagination control computes a window of page numbers with ellipses.
  - The discover page mirrors its filters into the URL and into the listing request, toggles favorites, and resets.
  - The filter form labels the gender options.

Modules follow the source files:

| module | source file |
|---|---|
| `Influencers` | `src/lib/influencers.ts` |
| `InfluencersRoute` | `src/app/api/influencers/route.ts` |
| `FavoritesRoute` | `src/app/api/favorites/route.ts` |
| `SeedUtils` | `src/lib/seedUtils.ts` |
| `Pagination` | `src/components/Pagination.tsx` |
| `DiscoverPage` | `src/components/DiscoverPageClient.tsx` |
| `SearchAndFilter` and `GenderLabels` | `src/components/SearchAndFilter.tsx` |

Shared modules hold what the TypeScript gets from its runtime:

| module | what it models |
|---|---|
| `Text` | ASCII `toLowerCase`, `includes`, the UTF-16 code-unit string order of `sort()`, and `String.replace` with a one-character pattern |
| `Decimal` | `parseInt(s, 10)`, and `Number.toString()` on integers below 10^21 in magnitude |
| `Seqs` | `filter`, flattening, first-seen de-duplication as a `Set` performs it, and insertion into a sorted list |
| `QueryParams` | `URLSearchParams` as a list of key/value pairs |
| `Session` | the session value |
| `Wrappers` | `Option` |

The model follows the code's own behaviour in a few places where a narrower reading would be simpler:

- **Any integer page.** `paginateResults` takes any integer page. A zero or negative page goes through `slice`'s count-from-the-end rule (`Influencers.Slice`, `Influencers.NonPositivePages`).
- **NaN page.** A `page` query parameter that `parseInt` turns into NaN is modelled as its own response, `InfluencersRoute.UnnumberedPage`. Its data is empty, its page serialises as null and both flags are false.
- **Page size.** `pageSize >= 1` is the one precondition. The listing route always passes 12.
- **Client page.** On the client, a page of `None` stands for NaN.
- **Page reset on mount and URL sync.** The effect that sets the page back to 1 also runs once after mounting, and after a URL sync that changes a filter. So the page first shown is page 1, even for a link to a later page, and going back to a URL with a different filter lands on page 1 (`DiscoverPage.DiscoverPageState.constructor`, `DiscoverPage.DiscoverPageState.SyncFromUrl`).
- **Gender conversion.** The gender conversion lower-cases its input and compares it exactly. So `"non_binary"` (with an underscore) is rejected, while `"Male"` is accepted (`SeedUtils.ConvertUnderscore`, `SeedUtils.ConvertCapitalised`).
- **State-changing code.** Code that changes state is written with classes:
  - `FavoritesRoute.FavoriteStore` is the favorites table;
  - `SeedUtils.SeedStore` holds the influencer rows and the join tables;
  - `DiscoverPage.DiscoverPageState` holds the page's React state.

  Loops in the source are methods with loops, each proved against a function:
  - `Pagination.GetPageNumbers` against `Pagination.Strip`;
  - `Seqs.CollectDistinct` against `Seqs.Dedupe`;
  - `SeedUtils.SeedStore.ConnectPlatforms` against `SeedUtils.Links`.

## Model

| member | source | states |
|---|---|---|
| Influencers.GetInfluencerById | src/lib/influencers.ts:9-11 | None exactly when no record has the id; otherwise the first record in catalog order whose id matches |
| Influencers.SortedDistinct | src/lib/influencers.ts:14-18 | the Set-then-sort result is strictly ascending in UTF-16 code-unit order and holds exactly the values that occur in some list |
| Influencers.GetUniqueTopics | src/lib/influencers.ts:13-19 | strictly ascending in UTF-16 code-unit order (no duplicates); a topic is present exactly when some record lists it |
| Influencers.GetUniquePlatforms | src/lib/influencers.ts:21-27 | strictly ascending in UTF-16 code-unit order; a platform is present exactly when some record lists it |
| Influencers.GetUniqueGenders | src/lib/influencers.ts:29-35 | strictly ascending in UTF-16 code-unit order; a gender is present exactly when some record has it |
| Influencers.Matching | src/lib/influencers.ts:46-75 | reference semantics of the filter: x is kept exactly when it is in the catalog and meets every criterion given; the result is a subsequence of the catalog; no criteria gives the catalog unchanged |
| Influencers.FilterInfluencers | src/lib/influencers.ts:46-75 | the four guarded filter steps; specified by FilterInfluencersIsMatching |
| Influencers.FilterInfluencersIsMatching | src/lib/influencers.ts:46-75 | the step-by-step filter (search, then topic, platform, gender, each skipped when its option is absent or empty) equals `Matching` |
| Influencers.SearchStepIsFilter | src/lib/influencers.ts:49-56 | the search step filters by a lower-cased substring match on name or location, and an empty search filters nothing |
| Influencers.TopicStepIsFilter | src/lib/influencers.ts:58-62 | the topic step keeps records whose topics include the topic, when one is given |
| Influencers.PlatformStepIsFilter | src/lib/influencers.ts:64-68 | the platform step keeps records whose platforms include the platform, when one is given |
| Influencers.GenderStepIsFilter | src/lib/influencers.ts:70-72 | the gender step keeps records whose gender equals the gender, when one is given |
| Influencers.FusedIsMatching | src/lib/influencers.ts:49-72 | four successive filters keep exactly what the conjunction of their predicates keeps, in catalog order |
| Influencers.TotalPages | src/lib/influencers.ts:93 | `Math.ceil(total / pageSize)`: the least n with n * pageSize >= total; zero exactly for an empty list |
| Influencers.Slice | src/lib/influencers.ts:96 | `items.slice(start, end)`; specified by SliceBound, SliceFrom and NonPositivePages |
| Influencers.SliceBound | src/lib/influencers.ts:96 | a clamped `slice` bound never passes the length |
| Influencers.Paginate | src/lib/influencers.ts:87-107 | total, page and pageSize are echoed; totalPages is the ceiling; hasNextPage iff page < totalPages; hasPrevPage iff page > 1; at most pageSize items |
| Influencers.NonPositivePages | src/lib/influencers.ts:94-96 | page 0 is empty; page -1 holds the second-to-last run of pageSize items and reports no previous page |
| Influencers.PaginateData | src/lib/influencers.ts:94-96 | for page >= 1, a non-empty page is a prefix of the items from (page-1)*pageSize; pages past the last are empty; earlier pages are full; the last page holds the remainder |
| Influencers.SliceFrom | src/lib/influencers.ts:94-96 | a slice from a non-negative start is empty past the end, exact inside and truncated at the end |
| Influencers.PageBounds | src/lib/influencers.ts:93-95 | where a page's start offset lies relative to the total, for pages before, at and after the last |
| Influencers.PageRun | src/lib/influencers.ts:94-96 | page n's data is `items[(n-1)*pageSize .. min(n*pageSize, total)]`, or empty when the start is past the end |
| Influencers.PagesUpToPrefix | src/lib/influencers.ts:94-96 | pages 1..n concatenated are the first n*pageSize items (or all of them) |
| Influencers.PagesReassemble | src/lib/influencers.ts:93-96 | concatenating pages 1..totalPages reproduces the list exactly |
| InfluencersRoute.Status | src/app/api/influencers/route.ts:10-12 | 401 exactly for the refused response, 200 otherwise |
| InfluencersRoute.Criterion | src/app/api/influencers/route.ts:15-18 | an absent or empty parameter is no criterion; otherwise the parameter's value |
| InfluencersRoute.ListInfluencers | src/app/api/influencers/route.ts:8-31 | refused exactly when the session is null; otherwise `paginate(filter(criteria), page, 12)`; a NaN page gives the unnumbered envelope |
| InfluencersRoute.Criteria | src/app/api/influencers/route.ts:15-18 | the filter options read from the query; specified by CriteriaEmpty and ApiRequestServesState |
| InfluencersRoute.RequestedPage | src/app/api/influencers/route.ts:19 | the requested page; specified by PageDefault and PageRoundTrip |
| InfluencersRoute.CriteriaEmpty | src/app/api/influencers/route.ts:15-18 | the query imposes no criterion exactly when search, topic, platform and gender are all absent or empty |
| InfluencersRoute.PageDefault | src/app/api/influencers/route.ts:19 | an absent or empty page parameter means page 1 |
| InfluencersRoute.DefaultRequest | src/app/api/influencers/route.ts:15-29 | an empty query string lists the first page of the whole catalog, twelve to a page |
| InfluencersRoute.ListedRecordsMatch | src/app/api/influencers/route.ts:22-29 | every listed record is a catalog record that meets the criteria; the page is a run of the matches starting at (page-1)*12 |
| InfluencersRoute.PageRoundTrip | src/app/api/influencers/route.ts:19 | setting the page parameter to the decimal text of a page reads back as that page (NaN included) |
| FavoritesRoute.FavoriteStore.Create | src/app/api/favorites/route.ts:59-73 | keeps the unique-pair constraint; a store failure changes nothing; an existing pair is a unique violation and changes nothing; otherwise exactly the new row is added |
| FavoritesRoute.Status | src/app/api/favorites/route.ts:11-80 | every response maps to one of 200, 201, 400, 401, 404, 409, 500; 201 exactly for a creation and 409 exactly for a duplicate |
| FavoritesRoute.Post | src/app/api/favorites/route.ts:34-81 | guards in order: no user id gives 401, an unreadable body 500, a falsy influencerId 400, an unknown id 404, and none of them touches the store; then a failure gives 500, an existing pair 409 with the store unchanged, and a new pair 201 with exactly that row added |
| FavoritesRoute.PostTwice | src/app/api/favorites/route.ts:59-73 | posting the same influencer twice creates one row and answers 201, then 409 |
| FavoritesRoute.LookUp | src/app/api/favorites/route.ts:20-21 | each fetched row is looked up in the catalog, position by position |
| FavoritesRoute.GetFavorites | src/app/api/favorites/route.ts:7-32 | 401 exactly without a user id; 500 when the store query fails; otherwise the looked-up records with the missing ones dropped |
| FavoritesRoute.Known | src/app/api/favorites/route.ts:20-22 | the fetched rows whose influencer is in the catalog: no more rows, none unknown, none known left out |
| FavoritesRoute.PresentIsKnown | src/app/api/favorites/route.ts:20-22 | the listing is, position by position, the catalog record of each known row |
| FavoritesRoute.KnownNewestFirst | src/app/api/favorites/route.ts:15-22 | dropping unknown rows keeps the newest-first order |
| FavoritesRoute.GetFavoritesFromStore | src/app/api/favorites/route.ts:7-32 | for the user's rows fetched newest first, the response lists only that user's favorites, in newest-first order, no more than there are rows, and every favorite with a catalog record appears |
| SeedUtils.ExtractUniquePlatforms | src/lib/seedUtils.ts:3-7 | first-seen de-duplication of all platform lists: no duplicates, and a name is present exactly when some record lists it |
| SeedUtils.ExtractUniqueTopics | src/lib/seedUtils.ts:9-13 | first-seen de-duplication of all topic lists: no duplicates, and a name is present exactly when some record lists it |
| SeedUtils.ConvertGenderToEnum | src/lib/seedUtils.ts:15-25 | absent or empty input gives null |
| SeedUtils.ConvertGenderExact | src/lib/seedUtils.ts:17-24 | a string converts to a gender exactly when its lower-case form is that gender's spelling ("male", "female", "non-binary") |
| SeedUtils.ConvertCapitalised | src/lib/seedUtils.ts:17-19 | "Male" converts to MALE |
| SeedUtils.ConvertUnderscore | src/lib/seedUtils.ts:17-24 | "non_binary" converts to null |
| SeedUtils.StrOrNull | src/lib/seedUtils.ts:57-58 | `value \|\| null` on strings: null exactly for missing or empty, otherwise the value |
| SeedUtils.NumOrNull | src/lib/seedUtils.ts:59-64 | `value \|\| null` on numbers: null exactly for missing or 0, otherwise the value |
| SeedUtils.UpdateData | src/lib/seedUtils.ts:53-78 | the update payload; specified by CreateMatchesUpdate and UpsertInfluencerWithRelations |
| SeedUtils.CreateData | src/lib/seedUtils.ts:53-78 | the create payload; specified by CreateMatchesUpdate |
| SeedUtils.CreateMatchesUpdate | src/lib/seedUtils.ts:53-78 | the create payload carries the record's id and otherwise the same columns as the update payload |
| SeedUtils.Links | src/lib/seedUtils.ts:81-100 | the join rows for a name list: exactly (influencer, mapped id) for each name the map resolves to a non-empty id |
| SeedUtils.LinksAppend | src/lib/seedUtils.ts:82-98 | one more name adds its join row when the map resolves it, and nothing otherwise |
| SeedUtils.SeedStore.ConnectPlatforms | src/lib/seedUtils.ts:81-100 | the platform join table gains exactly the links of the listed names; the other tables are unchanged |
| SeedUtils.SeedStore.ConnectTopics | src/lib/seedUtils.ts:103-122 | the topic join table gains exactly the links of the listed names; the other tables are unchanged |
| SeedUtils.SeedStore.UpsertInfluencerWithRelations | src/lib/seedUtils.ts:43-125 | the influencer row is set to the projected fields, and each join table gains exactly the resolvable links; the row is returned |
| SeedUtils.SeedStore.UpsertTwice | src/lib/seedUtils.ts:53-122 | a second `upsertInfluencerWithRelations` of the same record returns the same row, and the row and both join tables end as the first call left them |
| Seqs.DedupeOrder | src/lib/seedUtils.ts:4-6 | the de-duplicated list keeps first-occurrence order |
| Seqs.DedupeFlatten | src/lib/seedUtils.ts:3-13 | the de-duplicated flattened lists are duplicate-free, hold exactly the names of some list, and keep first-occurrence order |
| Seqs.CollectDistinct | src/lib/seedUtils.ts:4-6 | the Set-filling loop yields the first-seen de-duplication of its input |
| Seqs.InsertAscending | src/lib/influencers.ts:18 | inserting a new element into a list strictly ascending in code-unit order keeps it so |
| Seqs.Sort | src/lib/influencers.ts:18 | `sort()` permutes its input, and a duplicate-free input comes out strictly ascending in UTF-16 code-unit order |
| Seqs.FilterMembers | src/lib/influencers.ts:51-71 | `filter` keeps exactly the elements meeting the predicate, in order, as a subsequence |
| Seqs.FilterFusion | src/lib/influencers.ts:51-71 | filtering twice equals filtering once by the conjunction |
| Text.ContainsAt | src/lib/influencers.ts:53-54 | `includes` holds exactly when the needle occurs at some offset |
| Text.CodeUnits | src/lib/influencers.ts:18 | a character is one UTF-16 code unit below U+10000 and two above, each below 0x10000 |
| Text.BelowIsUnitOrder | src/lib/influencers.ts:18 | the order `sort()` uses is exactly the lexicographic order of the strings' UTF-16 code units |
| Text.RankIsUnitOrder | src/lib/influencers.ts:18 | for distinct characters, the per-character rank orders them as their code units do |
| Text.AstralBeforeHighPlane | src/lib/influencers.ts:18 | U+1F600 sorts before U+FF61, because its high surrogate is below 0xFF61 |
| Text.BelowTotal | src/lib/influencers.ts:18 | two different strings are ordered one way or the other |
| Decimal.ParseInt | src/app/api/influencers/route.ts:19 | `parseInt(s, 10)`; specified by ParseDigits, ParseNegativeDigits and IntToStringRoundTrip |
| Decimal.NumberTextRoundTrip | src/components/DiscoverPageClient.tsx:90 | `parseInt` of a page's decimal text gives the page back, NaN included |
| Decimal.IntToStringRoundTrip | src/components/DiscoverPageClient.tsx:101 | `parseInt(n.toString())` is n for every integer |
| Pagination.WindowFacts | src/components/Pagination.tsx:19-24 | for 1 <= current <= total the window lies in 1..total, contains the current page and has min(5, total) pages |
| Pagination.Run | src/components/Pagination.tsx:31-33 | the loop's run lo..hi, one number per position |
| Pagination.GetPageNumbers | src/components/Pagination.tsx:16-41 | the pushed list equals the strip: 1 and an ellipsis before the window when needed, the window, then an ellipsis and the last page when needed |
| Pagination.PushRun | src/components/Pagination.tsx:31-33 | the for loop appends exactly the run startPage..endPage |
| Pagination.StripLength | src/components/Pagination.tsx:16-41 | at most 9 entries |
| Pagination.Strip | src/components/Pagination.tsx:16-41 | the page strip as lead, window and trail; specified by StripLength and StripShape |
| Pagination.StripShape | src/components/Pagination.tsx:16-41 | first entry 1, last entry the total; numbers increase within 1..total; adjacent numbers differ by 1; an ellipsis sits exactly between numbers at least 2 apart and never first, last or twice in a row; the window and the current page are present |
| Pagination.LayoutShape | src/components/Pagination.tsx:26-38 | the lead, window and trail layout has the shape properties above |
| Pagination.FewPages | src/components/Pagination.tsx:19-38 | with at most 5 pages the strip is exactly 1..total with no ellipsis |
| Pagination.NavigationStaysInRange | src/components/Pagination.tsx:47-78 | Previous and Next, when enabled, go to a page in range; without loading they are disabled exactly at the first and at the last page |
| DiscoverPage.IfNonEmpty | src/components/DiscoverPageClient.tsx:86-89 | an empty value is omitted, any other is kept |
| DiscoverPage.ParseUrlParams | src/components/DiscoverPageClient.tsx:58-64 | the state read from the URL; specified by EmptyUrl and UrlFacts |
| DiscoverPage.EmptyUrl | src/components/DiscoverPageClient.tsx:58-64 | an empty URL parses to empty filters and page 1 |
| DiscoverPage.Entry | src/components/DiscoverPageClient.tsx:86-89 | a filter entry is set only for a non-empty value and names no other key |
| DiscoverPage.PageEntry | src/components/DiscoverPageClient.tsx:90 | the page entry is set, to the page's text, only past page 1 |
| DiscoverPage.BuildUrlParams | src/components/DiscoverPageClient.tsx:84-92 | the params built by the successive `set` calls are the URL entries of the state |
| DiscoverPage.SetWhen | src/components/DiscoverPageClient.tsx:86-90 | a conditional `set` of a fresh key appends that one entry, or nothing |
| DiscoverPage.UrlFacts | src/components/DiscoverPageClient.tsx:58-92 | the URL carries each non-empty filter and a page past 1, and no key besides these five; the URL is empty exactly for the cleared state; parsing it back gives the state, with page 1 for a page not past 1 |
| DiscoverPage.ApiParams | src/components/DiscoverPageClient.tsx:100-106 | the listing request's query; specified by ApiParamsContent and ApiRequestServesState |
| DiscoverPage.ApiParamsContent | src/components/DiscoverPageClient.tsx:100-106 | the API query always carries the page and carries each filter exactly when it is non-empty |
| DiscoverPage.ApiRequestServesState | src/components/DiscoverPageClient.tsx:100-108 | the listing endpoint reads the criteria and page of the state back from the API query, and answers with the state's page of matches |
| DiscoverPage.UrlKeysOnly | src/components/DiscoverPageClient.tsx:85-90 | the URL builder writes no key other than search, topic, platform, gender and page |
| DiscoverPage.DiscoverPageState.constructor | src/components/DiscoverPageClient.tsx:43-127 | the initial favorites and filters, nothing selected, the modal closed, and page 1 whatever initial page was passed, since the page-reset effect runs once after mounting |
| DiscoverPage.DiscoverPageState.FavoriteClick | src/components/DiscoverPageClient.tsx:129-161 | DELETE for a favorite, POST otherwise; on an ok response the id is removed or added and the new size is reported; otherwise nothing changes; removing the selected influencer clears the selection and closes the modal |
| DiscoverPage.DiscoverPageState.ViewDetails | src/components/DiscoverPageClient.tsx:163-166 | selects the record and opens the modal, nothing else |
| DiscoverPage.DiscoverPageState.SyncFromUrl | src/components/DiscoverPageClient.tsx:58-127 | the filters, debounced search and page become the parsed URL, except that the page falls back to 1 when the sync changed the debounced search or a filter (the reset effect at lines 124-127); favorites and selection are unchanged |
| DiscoverPage.DiscoverPageState.Load | src/components/DiscoverPageClient.tsx:66-71 | the successive setters load a state into the filters, debounced search and page |
| DiscoverPage.DiscoverPageState.TypeSearch | src/components/DiscoverPageClient.tsx:75-81 | typing changes only the search box; the query waits for the debounce |
| DiscoverPage.DiscoverPageState.DebounceElapsed | src/components/DiscoverPageClient.tsx:75-81 | the debounced search catches up with the box, and a change resets the page to 1 (the effect at lines 124-127) |
| DiscoverPage.DiscoverPageState.ChangeTopic | src/components/DiscoverPageClient.tsx:124-127 | the topic changes and, if it differs from before, the page is reset to 1 |
| DiscoverPage.DiscoverPageState.ChangePlatform | src/components/DiscoverPageClient.tsx:124-127 | the platform changes and, if it differs from before, the page is reset to 1 |
| DiscoverPage.DiscoverPageState.ChangeGender | src/components/DiscoverPageClient.tsx:124-127 | the gender changes and, if it differs from before, the page is reset to 1 |
| DiscoverPage.DiscoverPageState.ChangePage | src/components/DiscoverPageClient.tsx:90 | only the page changes |
| DiscoverPage.DiscoverPageState.Reset | src/components/DiscoverPageClient.tsx:168-175 | all four filters are cleared and the page is 1 |
| DiscoverPage.DiscoverPageState.ResetAndSettle | src/components/DiscoverPageClient.tsx:168-175 | once the debounce settles after a reset, the query is the cleared state and the URL is empty |
| SearchAndFilter.Options | src/components/SearchAndFilter.tsx:75-80 | one "All" option with the empty value, then one option per value with its label |
| SearchAndFilter.AllOptionClears | src/components/SearchAndFilter.tsx:75-140 | choosing an "All" option clears that criterion; choosing a listed topic, platform or gender sets that criterion to it |
| GenderLabels.GenderLabel | src/components/SearchAndFilter.tsx:140 | the label has the input's length; it keeps the first character and lower-cases the rest, with only the first underscore after it replaced by '-' |
| GenderLabels.LaterUnderscoresKept | src/components/SearchAndFilter.tsx:140 | any underscore after the first one is kept |
| GenderLabels.MaleLabel | src/components/SearchAndFilter.tsx:140 | MALE is labelled "Male" |
| GenderLabels.FemaleLabel | src/components/SearchAndFilter.tsx:140 | FEMALE is labelled "Female" |
| GenderLabels.NonBinaryLabel | src/components/SearchAndFilter.tsx:140 | NON_BINARY is labelled "Non-binary" |
| GenderLabels.LabelRoundTrip | src/components/SearchAndFilter.tsx:140 | each enum's label, lower-cased, is the spelling the seed conversion accepts, so converting the label gives the enum back |

## Left out

- **Database.** Prisma's query engine, its generated row ids and the schema file are not part of this model.
  - The favorites table is a set of rows, and the unique (userId, influencerId) constraint is the one the `P2002` handling relies on.
  - `findMany`'s answer is described by `FavoritesRoute.IsUserListing` rather than computed.
  - `upsertPlatform` and `upsertTopic` (src/lib/seedUtils.ts:27-41) are single ORM calls. The maps they produce are inputs to `UpsertInfluencerWithRelations`.
- **Authentication.** `getServerSession`, next-auth's middleware and src/lib/session.ts are not part of this model. The session is an input value.
- **The filter-options route.** It only calls the three `getUnique*` functions, which are modelled.
- **Seed script bootstrapping.** The seed script's password hashing, file reads, user upsert and process exit are not modelled.
- **Rendering.** Rendering components and the other pages are not part of this model.
- **Timing and effects.**
  - The 1200 ms debounce timer, React's effect scheduling, and the interleaving of fetches are not modelled.
  - The debounce firing is the explicit step `DebounceElapsed`.
  - A change of the debounced search or of a filter resets the page in the same step, whether the user or the URL sync made it, and the constructor includes the reset effect's run after mounting.
  - The sync effect's run at mount is not modelled separately: the constructor's initial state stands for what the URL holds.
- **Browser navigation and fetch.** `router.push`, `fetch` and the JSON decoding of responses are out. The outcome of a favorite request is an input.
- **The DELETE handler.** The favorites DELETE handler (src/app/api/favorites/[id]/route.ts) is out. The client's use of it is modelled only through the request it sends.
- **Characters.** Unicode case mapping and locale are out. Lower-casing is ASCII.
- **Catalog data.** The catalog's JSON contents are a parameter. Record fields that no modelled operation reads are omitted.
- **Percent-encoding.** Percent-encoding of query strings is not modelled. Parameters are key/value pairs.
- **Logging.** Console logging is not modelled.
- InfluencersRoute.ListInfluencers: the catch block answering 500 (src/app/api/influencers/route.ts:32-38) is not modelled, because no modelled step of the handler can throw.
- FavoritesRoute.Post: the body's `influencerId` is a string or absent; JSON bodies with a non-string id are not modelled.
- SeedUtils.NumOrNull: `engagementRate` is a float in the data and an integer here. NaN, which is also falsy, is not modelled.
- Decimal.IntToString: integers are unbounded here. A JavaScript number from 1e21 up in magnitude is written in exponent notation ("1e+21"), which is not modelled.
- Decimal.NumberText: pages are unbounded integers here, not doubles. The exponent notation from 1e21 and the rounding of integers past 2^53 are not modelled.
- Decimal.IntToStringRoundTrip: holds for every unbounded integer. In the source, `parseInt` reads "1e+21" as 1, and integers past 2^53 are rounded to a double; neither is modelled.
- Decimal.NumberTextRoundTrip: same bound as Decimal.IntToStringRoundTrip. Exponent notation from 1e21 and rounding past 2^53 are not modelled.
- Decimal.TrimStart: skips only the ASCII white space of Decimal.IsSpace. `parseInt` also skips U+00A0, U+FEFF, the line and paragraph separators and the other Unicode space separators.
- InfluencersRoute.PageRoundTrip: pages are unbounded integers. Exponent notation from 1e21 and rounding past 2^53 are not modelled.
- DiscoverPage.UrlFacts: the page part holds for unbounded integer pages. Exponent notation from 1e21 and rounding past 2^53 are not modelled.
- DiscoverPage.ApiRequestServesState: the page read back from the API query holds for unbounded integer pages. Exponent notation from 1e21 and rounding past 2^53 are not modelled.
- Influencers.Paginate: requires pageSize >= 1. A zero page size divides by zero in the source, and both callers pass a positive constant.
