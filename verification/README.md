# Educator dashboard core, modelled in Dafny

This project models the logic of an educator dashboard, a Next.js front end over a Django backend. It covers:

- **User tiers.** The tier classifier for signed-in users (`demo`, `educator`, `admin`) and its database-backed variant with the extra `demo-admin` tier. Also the account record that an upsert writes and a metadata migration writes, and the permission lookup.
- **Characters.** The catalogue of the seven companion characters and its two lookups.
- **Backend client, pure logic.**
  - How `makeRequest` turns a fetch outcome into an `ApiResponse`.
  - The page inversion that `getConversationsWithAnalytics` uses to list newest first, from a backend that stores conversations oldest first.
  - The enrichment heuristics: the character from the context, the topics and the mood text from the latest question, and the display name.
  - The per-character statistics and the count of active students.
- **Synthetic provider.** The fixed records and statistics served to demo users, and the provider's sorted, paginated listing.
- **Routing facade.** It sends demo users to the synthetic provider, refuses some calls locally and sends everything else to the backend.
- **Two pages.** The conversations page handles sorting, paging and client-side filtering. The students page handles loading, fallback data, search, status counts and colours.
- **Theme provider.** The CSS variable names it sets, and the theme and mode it restores from local storage and writes back.

Each source file is one module: `Auth`, `AuthDatabase`, `Characters`, `DjangoClient`, `Enrichment`, `MockData`, `HybridClient`, `ConversationsPage`, `StudentsPage` and `ThemeContext`. Shared modules support them:

- `Wrappers` holds `Option`.
- `JsString` holds ASCII `toLowerCase`, `includes` and JavaScript truthiness of optional strings.
- `ApiTypes` holds the response, parameter and pagination types.
- `SeqUtil` holds reversal, filtering, counting, de-duplication and a descending sort.
- `MockRecords` proves that each synthetic conversation's stored character is the one the backend heuristics would extract from its context.

Network calls, local storage, the clock and `parseInt` become parameters of the functions that need them.

## Model

| member | source | states |
|---|---|---|
| Auth.GetUserType | lib/auth.ts:68-103 | No user is demo. The admin rule is checked first, then the demo rule, and everyone else is an educator. |
| Auth.ClassificationBySignals | lib/auth.ts:77-102 | A user is admin iff it shows one of the six admin signals. It is demo iff it shows no admin signal and one of the six demo signals. It is educator iff it shows neither kind. |
| Auth.AdminRuleIffSignal | lib/auth.ts:77-87 | The admin test holds exactly when one of the six listed admin signals is present. |
| Auth.DemoRuleIffSignal | lib/auth.ts:89-99 | The demo test holds exactly when one of the six listed demo signals is present. |
| Auth.AdminOutranksDemo | lib/auth.ts:77-99 | A user showing both an admin and a demo signal is classified admin. |
| Auth.ExactlyOneTier | lib/auth.ts:105-118 | Every user, including none, satisfies exactly one of `isAdminUser`, `isEducatorUser` and `isDemoUser`. |
| Auth.EmailCaseInsensitive | lib/auth.ts:75 | Changing the email only in letter case never changes the tier. |
| Auth.OwnerInAnyCase | lib/auth.ts:75-86 | The owner's address, in any letter case, makes the user admin. |
| Auth.MissingEmailMatchesNothing | lib/auth.ts:75 | A missing email becomes the empty string, which matches none of the email tests. |
| Auth.BareUserIsEducator | lib/auth.ts:101-102 | A user with no email and no metadata is an educator. |
| Auth.NormalizedEmail | lib/auth.ts:75 | The lower-cased email has no upper-case letter and keeps the original length. A missing email gives the empty string. |
| Auth.GetAdminPermissions | lib/auth.ts:120-125 | No user, or no permission list, gives the empty list. Otherwise the result is the metadata's list. |
| AuthDatabase.GetUserTypeFromMetadata | lib/auth-database.ts:70-110 | `admin@school.edu` in any case is demo-admin, ahead of every admin signal. Otherwise the result is the front-end classifier's tier. |
| AuthDatabase.MetadataAgreesWithAuth | lib/auth-database.ts:84-109 | For every user other than the school-admin address, the metadata classifier and `lib/auth.ts` give the same tier. |
| AuthDatabase.SchoolAdminIsDemoAdmin | lib/auth-database.ts:80-82 | The school-admin address is demo-admin whatever its metadata says. |
| AuthDatabase.SchoolAdminWithAdminRole | lib/auth-database.ts:80-94 | A school-admin user with the `admin` role is still demo-admin, while the front-end classifier calls it admin. |
| AuthDatabase.GetUserTypeFromDatabase | lib/auth-database.ts:28-65 | An active stored row decides the tier and an inactive row gives demo. Without a row the metadata classifier decides. No user is demo. |
| AuthDatabase.InactiveRowIsDemo | lib/auth-database.ts:51-55 | A disabled account is demo even if its stored type is admin. |
| AuthDatabase.ExpiryIsIrrelevant | lib/auth-database.ts:43-49 | An expired demo row gives the same tier as an unexpired one, because both branches return demo. |
| AuthDatabase.RowNeverDemoAdmin | lib/auth-database.ts:41-57 | A stored row can never yield demo-admin, because the column holds only the three tiers. |
| AuthDatabase.Lift | lib/auth-database.ts:23 | Embedding the three front-end tiers into the four database tiers is injective and never reaches demo-admin. |
| AuthDatabase.UpsertRecord | lib/auth-database.ts:147-159 | The record prefers the metadata's display name and the caller's school and district. It defaults to the educator type and role, no permissions and author `system`. |
| AuthDatabase.UpsertDefaults | lib/auth-database.ts:147-159 | With no caller data, the record is the default educator record with the metadata's school and district. |
| AuthDatabase.GetUserPermissions | lib/auth-database.ts:185-197 | The stored list wins when present. Otherwise the metadata list is used, as `getAdminPermissions` computes it. No user gives none. |
| AuthDatabase.HasPermissionIffListed | lib/auth-database.ts:202-205 | A permission is held iff it is in the list. No user holds any. |
| AuthDatabase.StoredType | lib/auth-database.ts:215 | Demo-admin is stored as demo. Every other tier is stored as itself. |
| AuthDatabase.SyncAccountData | lib/auth-database.ts:210-222 | The migration's partial account carries the stored form of the metadata tier and the metadata permission list. |
| AuthDatabase.SyncStores | lib/auth-database.ts:210-225 | A migration stores the demoted metadata tier, the metadata role or `educator`, and the metadata author or `migration`. The upsert default `system` is therefore never written unless the metadata says so. |
| Characters.CatalogueWellFormed | lib/characters.ts:12-95 | There are seven characters, each keyed by its own id. Every legacy species name maps into the catalogue. |
| Characters.IdsDistinct | lib/characters.ts:12-76 | The seven ids are pairwise distinct. |
| Characters.GetCharacterById | lib/characters.ts:78-80 | A character is found iff the id is one of the seven, and the one found carries that id. |
| Characters.GetCharacterByLegacyName | lib/characters.ts:82-95 | A character is found iff the lower-cased name is one of the seven species words, and it is the one that word maps to. |
| Characters.LegacyLookupIgnoresCase | lib/characters.ts:93 | `PANDA` and `Sloth` find Koko and Zenzo. |
| Characters.ProperNamesAreNotLegacy | lib/characters.ts:83-94 | A character's own name or id is not a legacy name: `koko`, `Mochi` and `koko-panda` find nothing. |
| Characters.GetAllCharacters | lib/characters.ts:97-99 | All seven characters, in catalogue order, each equal to its catalogue entry. |
| Characters.AllCharactersDistinct | lib/characters.ts:97-99 | The list has no repeated id and covers every catalogue key. |
| DjangoClient.MakeRequest | lib/api/django-client.ts:86-144 | A 2xx answer gives data and no error. Any other answer gives the body's error or `HTTP <status>`. A timeout gives 408, and a thrown error its message with status 0. |
| DjangoClient.MakeRequestFailureIff | lib/api/django-client.ts:111-142 | A response has a truthy error exactly when the request did not succeed, except that a thrown error with an empty message looks like success. Status 0 means a throw or a literal 0 status. |
| DjangoClient.ChildById | lib/api/django-client.ts:317-318 | The child found has the requested id and comes from the listing. None means no such child, or the listing failed. |
| DjangoClient.ActualPage | lib/api/django-client.ts:285-286 | A requested page within range is counted from the end. A page beyond the end is clamped to page 1. |
| DjangoClient.ActualPageInvolution | lib/api/django-client.ts:285-286 | Within range, inverting the page twice gives back the requested page. |
| DjangoClient.Enrich | lib/api/django-client.ts:313-367 | An enriched conversation keeps the original record and always names one of the seven characters. |
| DjangoClient.FetchWindow | lib/api/django-client.ts:257-311 | The two backend requests either fail, passing the error on, or give at most one page of conversations with status 200. |
| DjangoClient.HealthyWindow | lib/api/django-client.ts:257-311 | On a healthy backend, the window is the physical page the inversion selects, reversed exactly when newest first is wanted, with the stored count. |
| DjangoClient.ConversationsWithAnalytics | lib/api/django-client.ts:238-395 | The result succeeds iff the window does. A failure passes through unchanged. A success enriches each conversation of the window in order and reports pagination for the requested page. |
| DjangoClient.ReturnedPageIsShown | lib/api/django-client.ts:305-388 | The conversations listed for a page are the returned page, each enriched in order. |
| DjangoClient.NewestFirstPagesReverseStorage | lib/api/django-client.ts:282-311 | Asking for pages 1 to the last in newest-first order lists every stored conversation exactly once, in reverse storage order. |
| DjangoClient.ReturnedPagesAreNewestFirst | lib/api/django-client.ts:282-311 | The first k newest-first pages together are the last stored conversations, reversed, cut at the inverted page boundaries. |
| DjangoClient.FirstPageIsShort | lib/api/django-client.ts:278-311 | With eight stored conversations and pages of three, page 1 shows only conversations 8 and 7. The inversion lines pages up with the oldest records, so the newest page is the short one. |
| DjangoClient.BeyondLastPageIsOldest | lib/api/django-client.ts:285-286 | A page past the end, in newest-first order, shows the oldest page instead of nothing. |
| DjangoClient.OrderingMattersOnlyThroughInversion | lib/api/django-client.ts:282-292 | Two orderings that agree on whether to invert give identical results. The backend is never sent the ordering. |
| DjangoClient.FailurePassesThrough | lib/api/django-client.ts:265-293 | A failing backend makes the listing fail with that failure's error and status. |
| DjangoClient.EmptyErrorLooksLikeEmptyBackend | lib/api/django-client.ts:266-278 | A thrown error with an empty message is not seen as an error. The listing then succeeds with count 0 and no conversations. |
| DjangoClient.StatRowsSpec | lib/api/django-client.ts:473-527 | There is one row per distinct character extracted at least once, with its display name and its own favourite topic, never `General Learning`. Every conversation's character has a row, and the counts add up to the number of conversations. |
| DjangoClient.StatRows | lib/api/django-client.ts:473-484 | Row i is for the i-th key and counts that key's conversations. |
| DjangoClient.TotalCountIsSumCounts | lib/api/django-client.ts:473-527 | The counts of the rows add up to the sum of each key's occurrences. |
| DjangoClient.HealthyCharacterStats | lib/api/django-client.ts:464-533 | On a healthy backend the statistics cover the default first page, and the row counts add up to that page's length. |
| DjangoClient.CharacterStats | lib/api/django-client.ts:464-533 | A successful statistics answer has status 200. |
| DjangoClient.CharacterStatsFailurePassesThrough | lib/api/django-client.ts:466-468 | When the conversations request fails, the statistics carry no data and hand back that request's error and status unchanged. |
| DjangoClient.CharacterStatsEmptyError | lib/api/django-client.ts:466-470 | An `Error` with an empty message is falsy and goes unnoticed, so the statistics are an empty list with status 200. |
| DjangoClient.ChildrenActiveOn | lib/api/django-client.ts:600-604 | The children listed are exactly those with a conversation starting on the given day, with no more entries than conversations. |
| DjangoClient.ActiveStudentsSpec | lib/api/django-client.ts:600-604 | The active student count is the number of distinct children with a conversation starting today. It never exceeds the number of conversations. |
| DjangoClient.DashboardStatsOf | lib/api/django-client.ts:543-615 | The statistics always answer 200 with data, and the active students never exceed the conversation total, whether the backend is healthy or failing. |
| DjangoClient.DashboardStatsSpec | lib/api/django-client.ts:543-615 | On a healthy backend the total is the full stored count. The active students are the distinct children seen today on the first page only, and the children total is capped by the page size. On a failing backend every count is 0. |
| Enrichment.ExtractCharacter | lib/api/django-client.ts:398-427 | The character extracted is always one of the seven ids. |
| Enrichment.FirstKeyword | lib/api/django-client.ts:418-422 | Nothing is found iff no later keyword occurs. Otherwise the first keyword in table order that occurs, and its character, are returned. |
| Enrichment.ExtractCharacterByKeyword | lib/api/django-client.ts:417-421 | If the j-th keyword occurs in the lower-cased context and no earlier one does, that keyword's character is chosen. |
| Enrichment.ExtractCharacterFallback | lib/api/django-client.ts:424-426 | With no keyword present, the character is the fallback for `parseInt` of the context. |
| Enrichment.ExtractCharacterIgnoresCase | lib/api/django-client.ts:417 | Contexts equal up to case name the same character. |
| Enrichment.JsRem | lib/api/django-client.ts:426 | JavaScript `%` truncates: it agrees with Euclidean remainder on non-negative numbers and is never positive on negative ones. |
| Enrichment.FallbackCharacter | lib/api/django-client.ts:425-426 | A non-negative number picks the character at that index modulo seven. A negative number or `NaN` falls back to Koko. |
| Enrichment.KeywordTableWellFormed | lib/api/django-client.ts:400-415 | Every keyword maps to a catalogue id, and no keyword contains a space. |
| Enrichment.SpeciesWordsAgreeWithLegacyNames | lib/api/django-client.ts:400-415 | Each species word of the legacy lookup in `lib/characters.ts` is extracted as the character that lookup gives. |
| Enrichment.IdsNameThemselves | lib/api/django-client.ts:400-422 | A context that is just a character's id extracts that character. |
| Enrichment.KeywordOrderBeatsPosition | lib/api/django-client.ts:418-422 | Keyword table order, not position in the text, decides: `charlie education` names Mochi, because `cat` comes before `charlie` in the table. |
| Enrichment.DisplayName | lib/api/django-client.ts:430-441 | An unknown id is shown as itself. |
| Enrichment.DisplayNameIsCatalogueName | lib/api/django-client.ts:430-441 | For the seven ids, the display name is the catalogue's full name in `lib/characters.ts`. |
| Enrichment.TopicNamesDistinct | lib/api/django-client.ts:450-460 | The eight topic names are distinct and differ from the general topic. |
| Enrichment.TopicIndex | lib/api/django-client.ts:450-457 | The index found is that of the topic's group, or past the end when there is none. |
| Enrichment.TopicsFrom | lib/api/django-client.ts:450-457 | The topics are exactly the groups with a keyword in the text, in the order the checks run. |
| Enrichment.ExtractTopics | lib/api/django-client.ts:444-461 | The topic list is never empty. |
| Enrichment.ExtractTopicsSpec | lib/api/django-client.ts:444-461 | With no text the topics are `general conversation`. Otherwise they are the matched groups in check order, or the general topic if none match. There are no duplicates. |
| Enrichment.FirstDigitFrom | lib/api/django-client.ts:345 | The first digit at or after i, or the end, with no digit skipped. |
| Enrichment.DigitsEnd | lib/api/django-client.ts:345 | The end of the run of digits starting at i. |
| Enrichment.NumberEnd | lib/api/django-client.ts:345 | A match of `\d+\.?\d*` is non-empty. |
| Enrichment.FirstNumber | lib/api/django-client.ts:345-346 | There is no match iff the text has no digit. |
| Enrichment.FirstNumberSpec | lib/api/django-client.ts:345 | The match is a number text (digits with at most one dot) that occurs at the text's first digit. It cannot be extended: the next character is no digit, and is a dot only if the match already has one. |
| Enrichment.MoodOf | lib/api/django-client.ts:341-352 | Without a mood evaluation or a digit in it, the score is 7.5. Otherwise it is the first number in the text. |
| Enrichment.MoodOfTuple | lib/api/django-client.ts:345-347 | A tuple `(happy, 8.5)` is read as the number `8.5`. |
| Enrichment.FavoriteTopic | lib/api/django-client.ts:511-526 | The topic is `General Learning` iff the id is not one of the seven characters. |
| MockData.GetChildren | lib/api/mock-data.ts:311-319 | Five children with ids 1 to 5, counted as five. |
| MockData.GetCharacterStats | lib/api/mock-data.ts:370-375 | One statistics row per catalogue character, in catalogue order. |
| MockData.GetDashboardStats | lib/api/mock-data.ts:377-382 | 650 conversations, 18 active students among 28 children, average mood 8.3 and duration 12.4. |
| MockData.StatisticsAgree | lib/api/mock-data.ts:248-307 | The per-character counts add up to the dashboard's 650. Every row's name is its character's full catalogue name. Active students do not exceed children. |
| MockData.SortedDataset | lib/api/mock-data.ts:343-348 | Sorting the eight records by start time, newest first, gives the order 4, 5, 3, 1, 2, 7, 6, 8. That order is descending and a permutation of the records. |
| MockData.GetConversationsWithAnalytics | lib/api/mock-data.ts:321-368 | A page holds at most page-size records, and the pagination is that of 8 records at the requested page. |
| MockData.ListingSpec | lib/api/mock-data.ts:339-367 | The listing is the requested slice of the dataset: sorted newest first when the ordering is missing or asks for it, in dataset order otherwise. A page past the end is empty. |
| MockData.ListingOrder | lib/api/mock-data.ts:343-353 | Newest-first requests slice the sorted order, and all other requests slice the dataset order. |
| MockData.ListingPastEnd | lib/api/mock-data.ts:350-353 | A page starting at or after record 8 is empty. |
| MockData.FirstPageOfThree | lib/api/mock-data.ts:343-353 | Page 1 of size three with no ordering lists conversations 4, 5 and 3. |
| MockData.AscendingIsNotSorted | lib/api/mock-data.ts:344-353 | An ascending ordering leaves the dataset order rather than sorting oldest first. |
| MockRecords.ContextNamesCharacter | lib/api/django-client.ts:398-422 | A context beginning with a character's id, whose words contain no earlier keyword, extracts that id. |
| MockRecords.RecordNamesCharacter | lib/api/django-client.ts:398-422 | The same statement for a record whose context is such a word sequence. |
| MockRecords.Record1 | lib/api/mock-data.ts:101-118 | Conversation 1's context extracts its stored character, Koko. |
| MockRecords.Record2 | lib/api/mock-data.ts:119-136 | Conversation 2's context extracts Mochi. |
| MockRecords.Record3 | lib/api/mock-data.ts:137-154 | Conversation 3's context extracts Charlie. |
| MockRecords.Record4 | lib/api/mock-data.ts:155-172 | Conversation 4's context extracts Ravi. |
| MockRecords.Record5 | lib/api/mock-data.ts:173-190 | Conversation 5's context extracts Nova. |
| MockRecords.Record6 | lib/api/mock-data.ts:191-208 | Conversation 6's context extracts Dr. Clover, found by `clover` in the middle of the id. |
| MockRecords.Record7 | lib/api/mock-data.ts:209-226 | Conversation 7's context extracts Zenzo. |
| MockRecords.Record8 | lib/api/mock-data.ts:227-244 | Conversation 8's context extracts Koko. |
| MockRecords.RecordsAgreeWithHeuristics | lib/api/mock-data.ts:100-245 | Every synthetic record's stored character is what the backend heuristics extract from its context. Its stored name is that character's display name. |
| MockRecords.DisplayNames | lib/api/mock-data.ts:100-245 | Every synthetic record's character name is the display name of its character id. |
| ApiTypes.NumberOr | lib/api/django-client.ts:257 | As JavaScript `or`: a missing or zero value takes the fallback. |
| ApiTypes.CeilDiv | lib/api/django-client.ts:279 | `Math.ceil(n / d)` is the least q with q·d ≥ n. |
| ApiTypes.CeilDivIsLeast | lib/api/django-client.ts:279 | The quotient covers n, no smaller count does, and it is 0 only for n = 0. |
| ApiTypes.MakePagination | lib/api/django-client.ts:372-385 | The pagination has a next link iff the page is before the last, and a previous link iff the page is after the first. Each link names the adjacent page. |
| ApiTypes.PaginationEnds | lib/api/mock-data.ts:355-366 | The last page has no next link and the first has no previous link. Page 1 has a next link iff there is more than one page of records. |
| ApiTypes.PhysicalPage | lib/api/mock-data.ts:351-353 | A page slice never exceeds the page size. |
| ApiTypes.PhysicalPageContents | lib/api/mock-data.ts:351-353 | The i-th record of page p is the record at (p-1)·size + i, and the page is empty past the end. |
| HybridClient.NewClient | lib/api/hybrid-client.ts:13-19 | A new client stores its user but reports the demo tier until `setUser` runs. |
| HybridClient.SetUser | lib/api/hybrid-client.ts:21-24 | `setUser` stores the user and the classifier's tier for it. |
| HybridClient.SetUserDeterminesTier | lib/api/hybrid-client.ts:13-24 | The reported tier is that of the last user set, whatever came before. A fresh client and the exported singleton report demo. |
| HybridClient.RouteOf | lib/api/hybrid-client.ts:41-204 | A locally refused call has status 403 or 400. |
| HybridClient.RoutingTable | lib/api/hybrid-client.ts:41-204 | Synthetic data answers exactly the demo tier's four dashboard calls. The demo tier's six pass-through calls get 403. A non-demo child listing without a parent id gets 400. Everything else, including the health check, reaches the backend. |
| HybridClient.EducatorRoutedLikeAdmin | lib/api/hybrid-client.ts:41-110 | Educators and admins are routed identically, and never to synthetic data. |
| HybridClient.Dispatch | lib/api/hybrid-client.ts:41-204 | The route alone decides whether the synthetic or the backend answer is used. A synthetic rejection becomes a 500 with the operation's message, and a refusal carries its route's error and status. |
| HybridClient.MockPathNeverThrows | lib/api/hybrid-client.ts:43-54 | The synthetic path answers either 200 with data or 500 with an error and no data. |
| HybridClient.RefusalIgnoresBackend | lib/api/hybrid-client.ts:126-152 | A locally refused call gives the same answer whatever the backend would have said. |
| HybridClient.GetConversationsWithAnalytics | lib/api/hybrid-client.ts:26-59 | Demo clients get the synthetic listing. Others get the backend listing for the same parameters, which carry no `defaultSort`. |
| HybridClient.GetCharacterStats | lib/api/hybrid-client.ts:61-80 | Demo clients get the synthetic statistics and others the backend's. |
| HybridClient.GetDashboardStats | lib/api/hybrid-client.ts:82-107 | Demo clients get the synthetic dashboard and others the backend's. |
| HybridClient.GetChildren | lib/api/hybrid-client.ts:109-134 | Demo clients get the five synthetic children. Others without a parent id (missing or 0) get a local 400, and the rest get the backend's answer. |
| HybridClient.DemoSeesSyntheticData | lib/api/hybrid-client.ts:41-124 | A demo client sees 8 conversations, 650 in the statistics and 5 children, whatever the backend holds. |
| HybridClient.ProviderFollowsClassifier | lib/api/hybrid-client.ts:21-57 | After `setUser`, the listing is synthetic iff the classifier puts the user in the demo tier, and always when there is no user. |
| HybridClient.ProvidersOrderAlikeButForId | lib/api/django-client.ts:282-283 | The backend path inverts pages exactly when the synthetic provider sorts newest first, or when the ordering mentions `-id`. |
| HybridClient.IdOrderingDisagrees | lib/api/mock-data.ts:344 | For the ordering `-id`, the backend lists newest first while the synthetic listing keeps dataset order. |
| ConversationsPage.SortingParam | app/dashboard/conversations/page.tsx:147-159 | The ordering is the field's column, prefixed by `-` exactly when the direction is descending. |
| ConversationsPage.InversionIffDescendingByStart | app/dashboard/conversations/page.tsx:147-175 | The page's request is listed newest first, by either provider, exactly when it sorts descending on a field mapped to the start time (date, time or mood). |
| ConversationsPage.InitialRequestInverts | app/dashboard/conversations/page.tsx:121-126 | The first request asks for page 1 of 20, newest first. |
| ConversationsPage.HandleSort | app/dashboard/conversations/page.tsx:219-227 | Clicking the current field flips the direction. Clicking another field sorts it descending. Either click returns to page 1. |
| ConversationsPage.HandleSortTwice | app/dashboard/conversations/page.tsx:219-227 | Clicking the current field twice restores the direction. A new field clicked twice ends ascending. |
| ConversationsPage.SetPageSize | app/dashboard/conversations/page.tsx:304-306 | Changing the page size returns to page 1 and keeps the sort. |
| ConversationsPage.RequestParams | app/dashboard/conversations/page.tsx:171-175 | The request carries the current page, page size and sorting parameter, and no `defaultSort`. |
| ConversationsPage.PreviousPage | app/dashboard/conversations/page.tsx:323 | Previous never goes below page 1. |
| ConversationsPage.NextPage | app/dashboard/conversations/page.tsx:338 | Next never goes past the last page. |
| ConversationsPage.PageButtons | app/dashboard/conversations/page.tsx:323-339 | Within range, an enabled button moves by one page. With zero pages, Next stays enabled and moves to page 0, which the providers read as page 1. |
| ConversationsPage.MoodOr | app/dashboard/conversations/page.tsx:234-236 | As JavaScript `or`: a missing or zero score takes the fallback. |
| ConversationsPage.FilterRows | app/dashboard/conversations/page.tsx:230-255 | Every row kept passes all four filters. |
| ConversationsPage.FilterIsOrderedSelectionOfRows | app/dashboard/conversations/page.tsx:230-255 | The filter keeps exactly the rows that pass, in their original order. |
| ConversationsPage.ClearedFiltersKeepAll | app/dashboard/conversations/page.tsx:512-517 | After "Clear filters" every loaded row is shown. |
| ConversationsPage.SearchIgnoresCase | app/dashboard/conversations/page.tsx:231 | Search terms equal up to case keep the same rows. |
| ConversationsPage.MoodBucketsPartition | app/dashboard/conversations/page.tsx:233-261 | Every score falls in exactly one of the high, medium and low buckets. The mood colour is green, yellow or red exactly for those buckets. |
| ConversationsPage.MissingMoodFilteredLowShownMedium | app/dashboard/conversations/page.tsx:233-236 | A row without a mood score is filtered as low but displayed as 7.5 in yellow. |
| ConversationsPage.TopicBadgesSpec | app/dashboard/conversations/page.tsx:649-663 | A row shows one to three badges. With no topics it shows `general` alone. With one or two it shows exactly the topics. With more it shows the first two and `+n`, where n counts the rest. |
| StudentsPage.ToStudents | app/dashboard/students/page.tsx:78-88 | One row per listed child, in order, each copying that child's fields. |
| StudentsPage.LoadStudentsSpec | app/dashboard/students/page.tsx:59-106 | Without a user nothing changes. A thrown or reported error shows the two fallback students with the error. A success shows the listed children in order, with no error. |
| StudentsPage.EducatorDisagreement | app/dashboard/students/page.tsx:68 | This page asks for synthetic students for educators, whom the facade in `lib/api/hybrid-client.ts` sends to the backend. For the other tiers the two choices agree. |
| StudentsPage.FilterStudents | app/dashboard/students/page.tsx:111-113 | Every student shown has a name containing the term, ignoring case. |
| StudentsPage.FilterStudentsSpec | app/dashboard/students/page.tsx:111-113 | Search keeps exactly the matching students, in order. An empty term keeps all, and terms equal up to case select the same students. |
| StudentsPage.StatusCountsSpec | app/dashboard/students/page.tsx:152-172 | The "Active Today" and "Need Attention" counts never together exceed the total. The fallback pair counts one active student and none needing attention. |
| StudentsPage.StatusColorSpec | app/dashboard/students/page.tsx:115-122 | Green means exactly active and yellow exactly needs-attention. Every other status is grey like inactive. |
| StudentsPage.StudentMoodColor | app/dashboard/students/page.tsx:124-128 | A student's mood colour uses the same thresholds as the conversations page: 8 and 6. |
| ThemeContext.HyphenateUpper | contexts/theme-context.tsx:30 | Each upper-case letter gains one `-`, so the length grows by the number of capitals. |
| ThemeContext.CssVarNameShape | contexts/theme-context.tsx:30 | A variable name starts with `--`, has no capitals, and is two characters plus one per capital longer than the key. |
| ThemeContext.CamelCaseInverts | contexts/theme-context.tsx:30 | For keys without `-`, reading the variable back in camel case recovers the key. |
| ThemeContext.CssVarNameInjective | contexts/theme-context.tsx:29-31 | Two colour keys without `-` never set the same variable. |
| ThemeContext.TwoWordVariable | contexts/theme-context.tsx:30 | `primaryForeground` sets `--primary-foreground`. |
| ThemeContext.LowerKeyVariable | contexts/theme-context.tsx:30 | A key without capitals sets `--` followed by the key. |
| ThemeContext.ThemeByKey | contexts/theme-context.tsx:47 | A theme found by key carries that key. |
| ThemeContext.ThemeByKeyInverts | contexts/theme-context.tsx:47 | Every theme is found under its own key, and only the four keys find a theme. |
| ThemeContext.LoadSaved | contexts/theme-context.tsx:43-58 | A non-empty saved theme naming a theme is adopted, and otherwise the theme is kept. A non-empty saved mode is adopted as is, and otherwise the system preference decides. |
| ThemeContext.SetTheme | contexts/theme-context.tsx:60-63 | The state and the storage both take the new theme. |
| ThemeContext.SetMode | contexts/theme-context.tsx:65-68 | The state and the storage both take the new mode. |
| ThemeContext.ToggleModeSpec | contexts/theme-context.tsx:70-73 | Toggling turns light into dark and anything else into light, and persists it. Twice it is the identity exactly when the mode was light or dark. |
| ThemeContext.SavedStateRestored | contexts/theme-context.tsx:43-68 | A theme and mode written by the setters are restored by the next mount, whatever the system prefers. |
| ThemeContext.FirstVisit | contexts/theme-context.tsx:20-57 | With nothing saved the theme stays wiillow, and the mode is dark iff the system prefers dark. |
| ThemeContext.LoadSavedThemeAsWritten | contexts/theme-context.tsx:47-49 | As written, the guard adopts the saved value whenever `themes[saved]` is truthy. That includes every one of the four theme keys. |
| ThemeContext.SavedToStringAdopted | contexts/theme-context.tsx:47-49 | A saved `toString` is adopted although it names no theme. |
| ThemeContext.GuardAgreesOnOwnKeys | contexts/theme-context.tsx:47-49 | On every saved value that is not an inherited `Object.prototype` name, the guard as written adopts the same theme as the corrected one. |
| ThemeContext.LoadSavedNamesATheme | contexts/theme-context.tsx:47-49 | After the corrected mount the theme is always one of the four, and an inherited name leaves it unchanged. |
| ThemeContext.Apply | contexts/theme-context.tsx:34-39 | After the effect the root has the `dark` class iff the mode is `dark`. |
| ThemeContext.SetPropertiesSpec | contexts/theme-context.tsx:24-32 | After the effect, each colour key's variable holds that colour's value for the mode, and every other variable is unchanged. |

## Left out

- Network, timers and `Promise.all` are left out. A backend is an immutable `Server` value: its stored conversations oldest first, its default page size, children, latest questions, and an optional failure every request returns. Timeouts are one outcome of a request.
- Supabase and local storage are left out. The user, the stored account row and the saved theme and mode are parameters. `signIn`, `signUp`, `signOut`, `getCurrentUser`, `resetPassword` and `onAuthStateChange` in `lib/auth.ts` are I/O only. `getWebAppAccount` is the `account` parameter of `GetUserPermissions`.
- Dates are left out. The demo expiry check returns demo either way, so it is not modelled. Durations are not computed. The conversations page's date filter is a `within` predicate parameter. "Today" in the dashboard statistics is a date-string parameter.
- Floating point is left out. Averages and `Math.round` are not computed. The backend's mood is kept as the matched text rather than `parseFloat` of it. Synthetic and page-level mood scores are `real` constants.
- `parseInt` is a parameter of the character heuristic, so its result on a context is an input.
- `toLowerCase` is modelled on ASCII letters only.
- The backend's per-character mood averages, which need one questions request per conversation, are left out.
- `getChildren`, `getConversationDetails`, `getMoodMeterCoordinates`, `getTodaysChatHistory`, `getTodaysEmotions`, `getUsageStatistics` and `healthCheck` of the backend client are routed by the facade but not modelled. Their answers are parameters.
- The response of `getAllChildrenAdmin` is a parameter of the students page.
- Page and page-size parameters are `Option<nat>`. Negative and fractional numbers never come from the pages and are left out.
- Rendering, icons, loading spinners, the other dashboard pages, the banners and the account scripts are left out.
- Sorting a copy (`[...mockConversations]`) holds trivially, because values are immutable.
- Enrichment.DisplayName: for an inherited `Object.prototype` name such as `toString`, `characterMap[id] || id` returns that inherited function, but the model returns the id. The case is unreachable, because `ExtractCharacter` only yields the seven ids.
- Enrichment.FavoriteTopic: for an inherited `Object.prototype` name, `topicMap[id] || 'General Learning'` returns that inherited function, but the model returns `General Learning`. The case is unreachable for the same reason: statistics rows only carry extracted ids.
- DjangoClient.Enrich: the latest answer, which the source fetches and returns as `latest_answer`, is not part of the enriched record, because nothing in the model reads it.
- DjangoClient.ConversationsWithAnalytics: backend records are non-null, and `context` is always a string. In the source, a null context makes `toLowerCase` throw, and the outer catch answers `Failed to fetch enhanced conversations` with status 500. The model does not produce that answer.
- DjangoClient.CharacterStats: backend records are non-null, and `context` is always a string. In the source, a null context makes `extractCharacterFromContext` throw, and the catch answers `Failed to calculate character statistics` with status 500. The model does not produce that answer.
- Characters.GetCharacterById: an inherited `Object.prototype` name such as `toString` returns a function in JavaScript, but the model returns nothing. No caller passes such an id.

## Findings

| source | as written | input that shows it | evidently intended | confidence | as-written member | corrected member |
|---|---|---|---|---|---|---|
| contexts/theme-context.tsx:47-49 | `themes[savedTheme]` is truthy for every name `Object.prototype` provides, so any such saved name is adopted as the theme | local storage `theme` = `toString`: the theme becomes `toString`, and `themes[theme].colors` is then undefined when the variables are applied | adopt the saved theme only when it is one of the four theme keys | medium, not executed | ThemeContext.SavedToStringAdopted | ThemeContext.LoadSavedNamesATheme |
