# VamYab: a verified model of the loan-comparison site

VamYab is an ASP.NET MVC site over SQLite that compares the loans Iranian banks offer. This project models its core in Dafny. The model covers:

- the public pages that list loans, banks and blog posts;
- the admin area that creates, edits, deletes, exports and imports them;
- the middleware that records page visits;
- the small serialisers and validators around them (newsletter sign-up, CSV export, sitemap, bank-branch search).

Each controller is a module:

- Each read-only page is a function from the tables to what the page shows.
- Each action that writes is two members:
  - a function from the tables before the request to the answer and the tables after it;
  - a method on the database context whose answer and new state are exactly that function's result.

Lemmas beside each function state what the site promises: uniqueness, cascades, idempotence, round trips, orderings and bounds.

| file | models |
|---|---|
| `optional.dfy` | `null` and thrown exceptions, as `Option` and `Result` |
| `text.dfy` | ordinal string comparison, ASCII case folding, white space and `Trim`, `Split`/`Join`, `Replace`, integer formatting, `int.TryParse` and 32-bit wrap-around |
| `clock.dfy` | UTC instants as whole seconds since 0001-01-01, with the `yyyy-MM-dd` and `yyyy-MM-dd HH:mm` formats |
| `json.dfy` | a parsed `JsonDocument`, and the `JsonElement` accessors the site calls, including how they throw |
| `entities.dfy` | one datatype per row class under `Models/`, with 32-bit `int` columns |
| `ordering.dfy` | `Where`, `OrderBy`/`ThenBy`, `Take`, `Skip` and `Distinct`, with SQLite's NULL ordering and negative-offset rule |
| `store.dfy` | `ApplicationDbContext`: the tables, the unique indexes, the cascading foreign keys, ids that are never reused, and an all-or-nothing `SaveChanges` |
| `listings.dfy` | the orderings and selections several pages share |
| `analytics.dfy` | `AnalyticsMiddleware`: which requests are recorded, and the truncated `PageVisit` row |
| `loans.dfy` | the public loan pages, including the view count that is deduplicated per client address |
| `page_views.dfy` | a loan page request through the whole pipeline: the detail handler's count decided before the middleware records the visit, and when a repeat from the same address is or is not recognised |
| `home.dfy` | the home page, the newsletter sign-up and the sitemap |
| `blog.dfy` | the public blog: pagination, categories, and a view count on every visit |
| `banks.dfy` | the public bank pages and the nearby-branches decoding |
| `slugs.dfy` | the admin controllers' `GenerateSlug` |
| `admin.dfy` | what the admin forms share: outcomes, the save step, and the JSON number fields |
| `admin_loans.dfy`, `admin_banks.dfy`, `admin_loan_types.dfy`, `admin_blog.dfy`, `admin_subscribers.dfy` | the admin controllers |

What a request depends on from outside is a parameter:

- the current time (`now`);
- the client address;
- the decoded JSON document;
- the model binder's validation verdict (`invalid`);
- a generated file name (`token`);
- the map service's answer (`overpass`).

Database semantics are SQLite's, the provider `Program.cs` configures:

- string equality and `Contains` are ordinal;
- NULL sorts lowest, so it comes last in a descending order;
- a negative `Skip` counts as zero;
- a save that would break a unique index or a foreign key fails as a whole.

C# `int` arithmetic wraps at 32 bits. The model says so wherever a count or an offset can overflow.

## Model

| member | source | states |
|---|---|---|
| Analytics.GetExtension | Middleware/AnalyticsMiddleware.cs:59 | `Path.GetExtension` with '/' as the only separator: a non-empty result is a suffix of the path that starts with its last '.', holds no further '.' or '/', and has at least one character after the dot; an empty result means there is no dot in the last segment or the path ends in '.' |
| Analytics.Truncate | Middleware/AnalyticsMiddleware.cs:36-38 | `s.Length > n ? s[..n] : s`: the result is a prefix of `s`, never longer than `n` or `s`; it is `s` when `s` fits and exactly `n` long otherwise |
| Analytics.RecordedVisit | Middleware/AnalyticsMiddleware.cs:25-40 | a row exactly when the path ("/" when absent) is tracked for the status and method and the user agent is non-empty and not a robot; the row is stamped now and keeps the first 500 characters of the path, the first 50 of the address (none when there is no address) and the first 500 of the user agent |
| Analytics.AddVisitConsistent | Middleware/AnalyticsMiddleware.cs:34-41 | appending a visit with the table's next id keeps every store invariant |
| Analytics.InvokeAsync | Middleware/AnalyticsMiddleware.cs:19-49 | after the downstream handler: the store gains exactly the `RecordedVisit` row when there is one and is otherwise unchanged, and stays valid |
| PageViews.Served | Middleware/AnalyticsMiddleware.cs:19-41 | a loan page request: the view count is decided against the visits stored before the request, exactly as the detail handler alone decides it; the request then adds at most one visit, after all earlier ones, exactly when the loan was found and the recorder takes a 200 response; nothing but loans, visits and the id counters changes |
| PageViews.ServeLoanPage | Middleware/AnalyticsMiddleware.cs:19-21 | the handler runs first and the recorder after it with the handler's status; the store ends as `Served` says and the page is absent exactly when no active loan has the slug |
| PageViews.CountedIff | Controllers/LoansController.cs:49-62 | a view changes the store exactly when an active loan has the slug and the client is not a repeat visitor |
| PageViews.FindActiveSameKeys | Controllers/LoansController.cs:44-47 | two loan lists that agree on every slug and active flag find the same loan |
| PageViews.FindActiveAfterDetail | Controllers/LoansController.cs:58-61 | counting a view changes no slug or active flag, so every slug finds the same loan afterwards |
| PageViews.DetailPathTracked | Middleware/AnalyticsMiddleware.cs:51-63 | a loan page path is never an admin, API or sitemap path, so it is tracked exactly when the status is below 400, the method is GET in any case and it has no ignored extension |
| PageViews.RecordedPageVisit | Middleware/AnalyticsMiddleware.cs:25-40 | a 200 GET of a loan page from a human client whose address fits 50 characters is recorded under exactly "/vam/{slug}", that address and the recording time |
| PageViews.RepeatWithinADayNotCounted | Controllers/LoansController.cs:52-62 | after any view from a human client with an address of 1 to 50 characters, another view from that address up to a day after the recording changes nothing |
| PageViews.AppendUnmatched | Controllers/LoansController.cs:55-56 | appending a visit that fails the repeat test leaves the test's answer unchanged |
| PageViews.UnmatchedVisitInvisible | Controllers/LoansController.cs:55-62 | when the request's stored visit does not pass the repeat test, the next decision is the one the earlier visits give, and the view counts when none of them matched |
| PageViews.CountedAgainAfterADay | Controllers/LoansController.cs:54-62 | a view more than a day after the recorded one counts again when nothing else from the address is recent |
| PageViews.LongAddressNeverMatches | Middleware/AnalyticsMiddleware.cs:37 | an address longer than 50 characters is stored cut to 50 and never matches itself, so every view from it counts |
| PageViews.UnrecordedAgentAlwaysCounts | Middleware/AnalyticsMiddleware.cs:32 | a robot or an empty user agent stores no visit, so every view it makes counts |
| PageViews.OtherSpellingsNeverMatch | Controllers/LoansController.cs:53-56 | "/VAM/{slug}" and "/vam/{slug}/" are stored as spelled, and the ordinal comparison with "/vam/{slug}" never matches them, so every such view counts |
| Analytics.ErrorResponsesNotTracked | Middleware/AnalyticsMiddleware.cs:53 | a status code of 400 or more is never tracked |
| Analytics.MethodIgnoresCase | Middleware/AnalyticsMiddleware.cs:54 | "get" and "Get" are tracked like "GET"; "HEAD" is not |
| Analytics.AdminPrefixNotTracked | Middleware/AnalyticsMiddleware.cs:55 | every path whose first six characters fold to "/admin" is skipped, so "/Administrator" is too |
| Analytics.ApiPrefixNotTracked | Middleware/AnalyticsMiddleware.cs:56 | every path whose first four characters fold to "/api" is skipped, so "/apix" is too |
| Analytics.SitemapExclusionIsCaseSensitive | Middleware/AnalyticsMiddleware.cs:57 | "/sitemap.xml" is not tracked while "/Sitemap.xml" is |
| Analytics.IgnoredExtensionNotTracked | Middleware/AnalyticsMiddleware.cs:59-60 | a path ending in a final-segment extension equal, ignoring case, to one of the twelve listed ones is never tracked |
| Analytics.NoExtensionPasses | Middleware/AnalyticsMiddleware.cs:59-60 | a path with no '.' in its last segment has an empty extension and so passes the extension test |
| Analytics.IsBotIff | Middleware/AnalyticsMiddleware.cs:65-70 | `IsBot` holds exactly when one of bot, crawler, spider, slurp, curl, wget occurs in the lower-cased user agent |
| Analytics.MarkerMakesBot | Middleware/AnalyticsMiddleware.cs:65-70 | a marker written in any case anywhere in the user agent makes it a robot |
| Analytics.NoUserAgentNoVisit | Middleware/AnalyticsMiddleware.cs:32 | an empty user agent or a robot never produces a row, whatever the path and status |
| Admin.Commit | Areas/Admin/Controllers/LoansController.cs:58-59 | a save outside any try block either stores the proposed tables, exactly when they meet every database constraint, or leaves them as they were with an escaping error |
| Admin.CommitImport | Areas/Admin/Controllers/LoansController.cs:273-279 | the same save inside the import's try block: a failing save is caught and reported as a rejected import, with nothing stored |
| Admin.ReadDecimal | Areas/Admin/Controllers/LoansController.cs:250 | `GetDecimal` succeeds on every JSON number and fails on anything else; the failure on a number outside `decimal`'s range is not modelled (see Left out) |
| Admin.ReadDouble | Areas/Admin/Controllers/BanksController.cs:192-193 | `GetDouble` succeeds exactly on a JSON number |
| Admin.NumberRoundTrips | Areas/Admin/Controllers/LoansController.cs:250 | a number written by the export reads back as itself; a null read by a null-testing property reads back as null, while `GetDecimal` on a null fails |
| Slugs.GenerateSlug | Areas/Admin/Controllers/LoansController.cs:289-292 | `GenerateSlug` keeps the length and maps every character on its own: space and ZWNJ to '-', letters to lower case |
| Slugs.GenerateSlugClean | Areas/Admin/Controllers/LoansController.cs:289-292 | a generated slug holds no space, no ZWNJ and no ASCII capital |
| Slugs.GenerateSlugIdempotent | Areas/Admin/Controllers/LoansController.cs:289-292 | generating a slug from a generated slug changes nothing |
| AdminLoans.Index | Areas/Admin/Controllers/LoansController.cs:21-29 | the list holds every loan exactly once, the most recently updated first |
| AdminLoans.Created | Areas/Admin/Controllers/LoansController.cs:39-62 | the form comes back exactly when validation fails or some loan already has the chosen slug (blank slug replaced by the title's slug), and then nothing changes; otherwise one loan is added under the next id with the chosen slug and both times set to now, or the save fails and nothing changes |
| AdminLoans.CreatedSavesIff | Areas/Admin/Controllers/LoansController.cs:39-62 | on a consistent store the create is saved exactly when validation passes, the slug is free and the referenced bank and loan type exist; the store stays consistent |
| AdminLoans.Create | Areas/Admin/Controllers/LoansController.cs:39-62 | the outcome and new store are those `Created` gives for the old store |
| AdminLoans.CopyEditable | Areas/Admin/Controllers/LoansController.cs:96-122 | the stored loan takes every posted field except id, view count and creation time, which it keeps, and its update time becomes now |
| AdminLoans.Edited | Areas/Admin/Controllers/LoansController.cs:74-127 | NotFound when the route id and posted id differ; the form comes back exactly when validation fails or another loan (not this one) holds the chosen slug; NotFound when the loan is missing; otherwise only that loan is replaced by the copy, or nothing changes |
| AdminLoans.EditedSavesIff | Areas/Admin/Controllers/LoansController.cs:74-127 | on a consistent store the edit is saved exactly when the ids agree, validation passes, the loan exists, no other loan has the slug and the new bank and loan type exist; the store stays consistent |
| AdminLoans.EditKeepsOwnSlug | Areas/Admin/Controllers/LoansController.cs:81 | resubmitting a loan with its own slug is saved, never refused as a duplicate |
| AdminLoans.Edit | Areas/Admin/Controllers/LoansController.cs:74-127 | the outcome and new store are those `Edited` gives for the old store |
| AdminLoans.Deleted | Areas/Admin/Controllers/LoansController.cs:131-140 | NotFound exactly when no loan has the id, and nothing changes then; a save removes that loan only |
| AdminLoans.DeletedAlwaysSaves | Areas/Admin/Controllers/LoansController.cs:131-140 | deleting an existing loan of a consistent store always saves and keeps it consistent |
| AdminLoans.Delete | Areas/Admin/Controllers/LoansController.cs:131-140 | the outcome and new store are those `Deleted` gives for the old store |
| AdminLoans.Toggled | Areas/Admin/Controllers/LoansController.cs:144-155 | NotFound exactly when no loan has the id; a save flips only that loan's active flag and sets its update time to now |
| AdminLoans.ToggleTwice | Areas/Admin/Controllers/LoansController.cs:149-150 | on a consistent store the toggle always saves, and toggling twice restores the flag, leaving only the second update time changed |
| AdminLoans.ToggleActive | Areas/Admin/Controllers/LoansController.cs:144-155 | the outcome and new store are those `Toggled` gives for the old store |
| AdminLoans.Exported | Areas/Admin/Controllers/LoansController.cs:158-234 | the export is a JSON object exactly when a loan has the id, NotFound otherwise |
| AdminLoans.ImportTexts | Areas/Admin/Controllers/LoansController.cs:246-249 | reading the title, slug and descriptions changes no other field |
| AdminLoans.ImportTerms | Areas/Admin/Controllers/LoansController.cs:250-254 | reading the rate, amounts, term and requirements changes no other field |
| AdminLoans.ImportListing | Areas/Admin/Controllers/LoansController.cs:255-259 | reading the flags, bank, loan type and link changes no other field |
| AdminLoans.ImportSeo | Areas/Admin/Controllers/LoansController.cs:260-263 | reading the meta fields and analysis changes no other field |
| AdminLoans.ImportCalculator | Areas/Admin/Controllers/LoansController.cs:264-267 | reading the calculator switch and month bounds changes no other field |
| AdminLoans.ImportRates | Areas/Admin/Controllers/LoansController.cs:268-271 | reading the rate bounds and related article ids changes no other field |
| AdminLoans.Imported | Areas/Admin/Controllers/LoansController.cs:244-272 | a root that is not an object fails; a successful import keeps the id, view count and creation time and sets the update time to now |
| AdminLoans.ImportResponse | Areas/Admin/Controllers/LoansController.cs:238-281 | NotFound exactly when no loan has the id; any failure (unparsable text, a bad property, a failing save) leaves the store unchanged; a save replaces only that loan by its imported version |
| AdminLoans.ImportJson | Areas/Admin/Controllers/LoansController.cs:238-281 | the outcome and new store are those `ImportResponse` gives for the old store |
| AdminLoans.TextsOfExport | Areas/Admin/Controllers/LoansController.cs:246-249 | importing the values the export writes for title, slug and descriptions gives back the source loan's values |
| AdminLoans.TermsOfExport | Areas/Admin/Controllers/LoansController.cs:250-254 | importing the exported rate, amounts, term and requirements gives back the source's values when amounts and term are set, and fails otherwise |
| AdminLoans.ListingOfExport | Areas/Admin/Controllers/LoansController.cs:255-259 | importing the exported flags, bank, loan type and link gives back the source's values |
| AdminLoans.SeoOfExport | Areas/Admin/Controllers/LoansController.cs:260-263 | importing the exported meta fields gives back the source's values |
| AdminLoans.CalculatorOfExport | Areas/Admin/Controllers/LoansController.cs:264-267 | importing the exported calculator settings gives back the source's values, nulls included |
| AdminLoans.RatesOfExport | Areas/Admin/Controllers/LoansController.cs:268-271 | importing the exported rate bounds and article ids gives back the source's values, nulls included |
| AdminLoans.CarriedTexts | Areas/Admin/Controllers/LoansController.cs:204-207 | the export's Title, Slug and description keys hold the loan's values, whatever notes precede them |
| AdminLoans.CarriedTerms | Areas/Admin/Controllers/LoansController.cs:208-210 | the export's InterestRate, MinAmount and MaxAmount keys hold the loan's values |
| AdminLoans.CarriedRequirements | Areas/Admin/Controllers/LoansController.cs:211-212 | the export's RepaymentMonths and Requirements keys hold the loan's values |
| AdminLoans.CarriedListing | Areas/Admin/Controllers/LoansController.cs:213-217 | the export's flag, id and link keys hold the loan's values |
| AdminLoans.CarriedSeo | Areas/Admin/Controllers/LoansController.cs:218-221 | the export's meta and analysis keys hold the loan's values |
| AdminLoans.CarriedCalculator | Areas/Admin/Controllers/LoansController.cs:222-225 | the export's calculator switch and month keys hold the loan's values |
| AdminLoans.CarriedRates | Areas/Admin/Controllers/LoansController.cs:226-229 | the export's rate bound and article id keys hold the loan's values |
| AdminLoans.ImportOfExport | Areas/Admin/Controllers/LoansController.cs:204-271 | importing a loan's export into any loan gives what the edit form gives when it posts that loan, or fails when the loan lacks an amount or a term |
| AdminLoans.ExportImportRoundTrip | Areas/Admin/Controllers/LoansController.cs:158-281 | re-importing a loan's own unedited export saves and changes nothing but its update time, when its amounts and term are set |
| AdminLoans.NullMinAmountRejected | Areas/Admin/Controllers/LoansController.cs:251 | re-importing the export of a loan with no minimum amount is rejected and changes nothing |
| AdminLoans.EmptyImport | Areas/Admin/Controllers/LoansController.cs:244-272 | an empty object changes nothing but the update time |
| AdminBanks.Index | Areas/Admin/Controllers/BanksController.cs:20-24 | the list holds every bank exactly once, in display order |
| AdminBanks.ParentBanks | Areas/Admin/Controllers/BanksController.cs:224-231 | the parent-bank choices are exactly the banks whose type is "bank", in display order |
| AdminBanks.Created | Areas/Admin/Controllers/BanksController.cs:34-53 | the form comes back exactly when validation fails or some bank already has the chosen slug (blank slug replaced by the name's slug), and then nothing changes; otherwise one bank is added under the next id with the chosen slug and creation time now, or the save fails and nothing changes |
| AdminBanks.CreatedSavesIff | Areas/Admin/Controllers/BanksController.cs:34-53 | on a consistent store the create is saved exactly when validation passes and the slug is free; the store stays consistent |
| AdminBanks.Create | Areas/Admin/Controllers/BanksController.cs:34-53 | the outcome and new store are those `Created` gives for the old store |
| AdminBanks.CopyEditable | Areas/Admin/Controllers/BanksController.cs:84-105 | the stored bank takes every posted field except the id and the creation time, which it keeps |
| AdminBanks.Edited | Areas/Admin/Controllers/BanksController.cs:65-110 | NotFound when the route id and posted id differ; the form comes back exactly when validation fails or another bank holds the chosen slug; NotFound when the bank is missing; otherwise only that bank is replaced by the copy, or nothing changes |
| AdminBanks.EditedSavesIff | Areas/Admin/Controllers/BanksController.cs:65-110 | on a consistent store the edit is saved exactly when the ids agree, validation passes, the bank exists and no other bank has the slug; the store stays consistent |
| AdminBanks.Edit | Areas/Admin/Controllers/BanksController.cs:65-110 | the outcome and new store are those `Edited` gives for the old store |
| AdminBanks.Deleted | Areas/Admin/Controllers/BanksController.cs:213-222 | NotFound exactly when no bank has the id, and nothing changes then; a save removes the bank together with its loans |
| AdminBanks.DeletedAlwaysSaves | Areas/Admin/Controllers/BanksController.cs:213-222 | deleting an existing bank of a consistent store always saves, keeps it consistent, and leaves exactly the loans of other banks |
| AdminBanks.Delete | Areas/Admin/Controllers/BanksController.cs:213-222 | the outcome and new store are those `Deleted` gives for the old store |
| AdminBanks.Exported | Areas/Admin/Controllers/BanksController.cs:113-168 | the export is a JSON object exactly when a bank has the id, NotFound otherwise |
| AdminBanks.ReadBranches | Areas/Admin/Controllers/BanksController.cs:196 | BranchesJson never fails: a JSON string gives its text, anything else a compact JSON text of the value, so a null gives "null" (see Left out) |
| Json.EscapeHasNoControl | Areas/Admin/Controllers/BanksController.cs:196 | the stored JSON text of a string holds no raw control character, so it stays valid JSON |
| AdminBanks.ImportIdentity | Areas/Admin/Controllers/BanksController.cs:180-183 | reading name, slug, logo and web site changes no other field |
| AdminBanks.ImportAbout | Areas/Admin/Controllers/BanksController.cs:184-187 | reading description, history, founding year and branch count changes no other field |
| AdminBanks.ImportContact | Areas/Admin/Controllers/BanksController.cs:188-191 | reading city, address, phone and e-mail changes no other field |
| AdminBanks.ImportPlace | Areas/Admin/Controllers/BanksController.cs:192-195 | reading coordinates, bank type and ownership changes no other field |
| AdminBanks.ImportListing | Areas/Admin/Controllers/BanksController.cs:196-198 | reading branches, active flag and display order changes no other field |
| AdminBanks.ImportSeo | Areas/Admin/Controllers/BanksController.cs:199-200 | reading the meta fields changes no other field |
| AdminBanks.Imported | Areas/Admin/Controllers/BanksController.cs:178-200 | a root that is not an object fails; a successful import keeps the id, the parent bank and the creation time |
| AdminBanks.ImportResponse | Areas/Admin/Controllers/BanksController.cs:172-209 | NotFound exactly when no bank has the id; any failure leaves the store unchanged; a save replaces only that bank by its imported version |
| AdminBanks.ImportJson | Areas/Admin/Controllers/BanksController.cs:172-209 | the outcome and new store are those `ImportResponse` gives for the old store |
| AdminBanks.IdentityOfExport | Areas/Admin/Controllers/BanksController.cs:180-183 | importing the exported name, slug, logo and web site gives back the source bank's values |
| AdminBanks.AboutOfExport | Areas/Admin/Controllers/BanksController.cs:184-187 | importing the exported description, history, year and branch count gives back the source's values, nulls included |
| AdminBanks.ContactOfExport | Areas/Admin/Controllers/BanksController.cs:188-191 | importing the exported contact fields gives back the source's values |
| AdminBanks.PlaceOfExport | Areas/Admin/Controllers/BanksController.cs:192-195 | importing the exported coordinates, type and ownership gives back the source's values, null coordinates included |
| AdminBanks.ListingOfExport | Areas/Admin/Controllers/BanksController.cs:196-198 | importing the exported branches, flag and order gives back the source's values, except that missing branches come back as "null" |
| AdminBanks.SeoOfExport | Areas/Admin/Controllers/BanksController.cs:199-200 | importing the exported meta fields gives back the source's values |
| AdminBanks.CarriedIdentity | Areas/Admin/Controllers/BanksController.cs:143-146 | the export's Name, Slug, LogoUrl and Website keys hold the bank's values, whatever notes precede them |
| AdminBanks.CarriedAbout | Areas/Admin/Controllers/BanksController.cs:147-150 | the export's description, history, year and branch count keys hold the bank's values |
| AdminBanks.CarriedContact | Areas/Admin/Controllers/BanksController.cs:151-154 | the export's city, address, phone and e-mail keys hold the bank's values |
| AdminBanks.CarriedPlace | Areas/Admin/Controllers/BanksController.cs:155-158 | the export's coordinate, type and ownership keys hold the bank's values |
| AdminBanks.CarriedListing | Areas/Admin/Controllers/BanksController.cs:159-163 | the export's branches, flag, order and meta keys hold the bank's values |
| AdminBanks.ImportOfExport | Areas/Admin/Controllers/BanksController.cs:143-200 | importing a bank's export into any bank gives the exported bank under the target's id, parent bank and creation time, with missing branches turned into "null" |
| AdminBanks.ExportImportRoundTrip | Areas/Admin/Controllers/BanksController.cs:113-209 | re-importing a bank's own unedited export always saves and changes nothing, except that missing branches become the text "null" |
| AdminBanks.EmptyImport | Areas/Admin/Controllers/BanksController.cs:178-200 | an empty object changes nothing |
| AdminLoanTypes.Index | Areas/Admin/Controllers/LoanTypesController.cs:20-24 | the list holds every loan type exactly once, in display order |
| AdminLoanTypes.Created | Areas/Admin/Controllers/LoanTypesController.cs:33-48 | the form comes back exactly when validation fails or some loan type already has the chosen slug (blank slug replaced by the name with spaces and ZWNJs turned into '-' and lower-cased), and then nothing changes; otherwise one loan type is added under the next id, or the save fails and nothing changes |
| AdminLoanTypes.CreatedSavesIff | Areas/Admin/Controllers/LoanTypesController.cs:33-48 | on a consistent store the create is saved exactly when validation passes and the slug is free; the store stays consistent |
| AdminLoanTypes.Create | Areas/Admin/Controllers/LoanTypesController.cs:33-48 | the outcome and new store are those `Created` gives for the old store |
| AdminLoanTypes.CopyEditable | Areas/Admin/Controllers/LoanTypesController.cs:75-80 | the stored loan type takes name, slug, description, icon, active flag and display order from the form and keeps its id |
| AdminLoanTypes.Edited | Areas/Admin/Controllers/LoanTypesController.cs:59-85 | NotFound when the route id and posted id differ; the form comes back exactly when validation fails or another loan type holds the chosen slug; NotFound when the type is missing; otherwise only that loan type is replaced by the copy, or nothing changes |
| AdminLoanTypes.EditedSavesIff | Areas/Admin/Controllers/LoanTypesController.cs:59-85 | on a consistent store the edit is saved exactly when the ids agree, validation passes, the type exists and no other type has the slug; the store stays consistent |
| AdminLoanTypes.Edit | Areas/Admin/Controllers/LoanTypesController.cs:59-85 | the outcome and new store are those `Edited` gives for the old store |
| AdminLoanTypes.Deleted | Areas/Admin/Controllers/LoanTypesController.cs:89-98 | NotFound exactly when no loan type has the id, and nothing changes then; a save removes the type together with its loans |
| AdminLoanTypes.DeletedAlwaysSaves | Areas/Admin/Controllers/LoanTypesController.cs:89-98 | deleting an existing loan type of a consistent store always saves, keeps it consistent, and leaves exactly the loans of other types |
| AdminLoanTypes.Delete | Areas/Admin/Controllers/LoanTypesController.cs:89-98 | the outcome and new store are those `Deleted` gives for the old store |
| AdminBlog.Index | Areas/Admin/Controllers/BlogController.cs:22-26 | the list holds every post exactly once, the most recently updated first |
| AdminBlog.ImageExtension | Areas/Admin/Controllers/BlogController.cs:125-126 | the stored file's extension is a lower-case '.'-led suffix with no further '.' or '/': the upload's own extension ignoring case, or ".jpg" when it has none |
| AdminBlog.ImageUrl | Areas/Admin/Controllers/BlogController.cs:127-131 | the returned URL starts with "/uploads/blog/" followed by the token |
| AdminBlog.ImageUrlExtension | Areas/Admin/Controllers/BlogController.cs:125-131 | the extension of the returned URL is exactly the one chosen for the file, whatever the token |
| AdminBlog.PublicationDate | Areas/Admin/Controllers/BlogController.cs:100-101 | a published post always has a date after a save; an existing date is kept; an unpublished post keeps what it had; a new date can only be now |
| AdminBlog.PublicationDateSetOnce | Areas/Admin/Controllers/BlogController.cs:69-106 | a post that has a publication date keeps it, its place and its id through any run of edit submissions, whatever they post |
| AdminBlog.EditedKeepsDates | Areas/Admin/Controllers/BlogController.cs:82-101 | one edit keeps every post's place and id and never changes a publication date already set |
| AdminBlog.NewPost | Areas/Admin/Controllers/BlogController.cs:46-52 | the added row is the posted post with the chosen slug, both times now, the uploaded cover's URL when a non-empty file came (else the posted URL), and a publication date set to now only when published without one |
| AdminBlog.Created | Areas/Admin/Controllers/BlogController.cs:35-58 | the form comes back exactly when validation fails or some post already has the chosen slug, and then nothing changes; otherwise `NewPost` is added under the next id, or the save fails and nothing changes |
| AdminBlog.CreatedSavesIff | Areas/Admin/Controllers/BlogController.cs:35-58 | on a consistent store the create is saved exactly when validation passes and the slug is free; the store stays consistent |
| AdminBlog.Create | Areas/Admin/Controllers/BlogController.cs:35-58 | the outcome and new store are those `Created` gives for the old store |
| AdminBlog.EditedCover | Areas/Admin/Controllers/BlogController.cs:85-88 | a non-empty upload wins, then a non-empty posted URL, else the stored cover stays; an existing cover is never cleared |
| AdminBlog.CopyEditable | Areas/Admin/Controllers/BlogController.cs:85-101 | the stored post keeps id, view count, creation time, category, tags and related bank and loans; takes title, slug, summary, content, meta fields and the published flag from the form; its update time is now; its cover follows `EditedCover`; an existing publication date is kept and a published post always has one, a new one being now; its publication date is `PublicationDate` of the posted flag, the stored date and now |
| AdminBlog.Edited | Areas/Admin/Controllers/BlogController.cs:69-106 | NotFound when the route id and posted id differ; the form comes back exactly when validation fails or another post holds the chosen slug; NotFound when the post is missing; otherwise only that post is replaced by the copy, or nothing changes |
| AdminBlog.EditedSavesIff | Areas/Admin/Controllers/BlogController.cs:69-106 | on a consistent store the edit is saved exactly when the ids agree, validation passes, the post exists and no other post has the slug; the store stays consistent |
| AdminBlog.Edit | Areas/Admin/Controllers/BlogController.cs:69-106 | the outcome and new store are those `Edited` gives for the old store |
| AdminBlog.Deleted | Areas/Admin/Controllers/BlogController.cs:110-119 | NotFound exactly when no post has the id, and nothing changes then; a save removes that post only |
| AdminBlog.DeletedAlwaysSaves | Areas/Admin/Controllers/BlogController.cs:110-119 | deleting an existing post of a consistent store always saves, keeps it consistent, and leaves exactly the other posts |
| AdminBlog.Delete | Areas/Admin/Controllers/BlogController.cs:110-119 | the outcome and new store are those `Deleted` gives for the old store |
| AdminSubscribers.Index | Areas/Admin/Controllers/SubscribersController.cs:19-25 | the list holds every subscriber exactly once, the most recent first |
| AdminSubscribers.Deleted | Areas/Admin/Controllers/SubscribersController.cs:29-38 | NotFound exactly when no subscriber has the id, and nothing changes then; a save removes that subscriber only |
| AdminSubscribers.DeletedAlwaysSaves | Areas/Admin/Controllers/SubscribersController.cs:29-38 | deleting an existing subscriber of a consistent store always saves, keeps it consistent, and leaves exactly the other subscribers |
| AdminSubscribers.Delete | Areas/Admin/Controllers/SubscribersController.cs:29-38 | the outcome and new store are those `Deleted` gives for the old store |
| AdminSubscribers.ExportRows | Areas/Admin/Controllers/SubscribersController.cs:44-47 | the exported subscribers are exactly the active ones, each as many times as it is stored, the most recent first |
| AdminSubscribers.CsvRow | Areas/Admin/Controllers/SubscribersController.cs:50 | a row is the e-mail, the name (empty when missing) and the 16-character minute, with two commas |
| AdminSubscribers.ExportCsv | Areas/Admin/Controllers/SubscribersController.cs:49-50 | the file starts with the header line "Email,Name,SubscribedAt" |
| AdminSubscribers.MinuteChars | Areas/Admin/Controllers/SubscribersController.cs:50 | the yyyy-MM-dd HH:mm column holds only digits, '-', ' ' and ':' |
| AdminSubscribers.RowColumns | Areas/Admin/Controllers/SubscribersController.cs:50 | splitting a row on ',' gives back e-mail, name and minute, provided the e-mail and name hold no comma (nothing is quoted) |
| AdminSubscribers.RowHasNoNewline | Areas/Admin/Controllers/SubscribersController.cs:50 | a row holds no newline when the e-mail and name hold none |
| AdminSubscribers.ExportCsvLines | Areas/Admin/Controllers/SubscribersController.cs:49-50 | after the header, splitting the file on newlines gives exactly one row per active subscriber in export order, with no trailing newline, provided no e-mail or name holds a newline |
| AdminSubscribers.ExportCsvHeaderOnly | Areas/Admin/Controllers/SubscribersController.cs:49-50 | the file is exactly the header line and its newline when and only when no subscriber is active |
| Store.Find | Areas/Admin/Controllers/LoansController.cs:133 | `FindAsync(id)` gives a position holding a row with that primary key, and nothing exactly when no row has it |
| Store.RemoveBank | Data/ApplicationDbContext.cs:46-49 | deleting a bank keeps exactly the other banks and exactly the loans of other banks, and touches no other table |
| Store.RemoveLoanType | Data/ApplicationDbContext.cs:51-54 | deleting a loan type keeps exactly the other types and exactly the loans of other types, and touches no other table |
| Store.RemoveLoan | Areas/Admin/Controllers/LoansController.cs:136 | removing a loan keeps exactly the other loans and touches no other table |
| Store.RemovePost | Areas/Admin/Controllers/BlogController.cs:115 | removing a post keeps exactly the other posts and touches no other table |
| Store.RemoveSubscriber | Areas/Admin/Controllers/SubscribersController.cs:34 | removing a subscriber keeps exactly the other subscribers and touches no other table |
| Store.FilterUnique | Data/ApplicationDbContext.cs:24 | deleting rows never breaks a unique index |
| Store.AppendUniqueIff | Data/ApplicationDbContext.cs:24 | a unique index accepts a new row exactly when its key is not taken yet |
| Store.UpdateUniqueIff | Data/ApplicationDbContext.cs:24 | a unique index accepts a rewritten row exactly when no other row has its key |
| Store.RemoveBankConsistent | Data/ApplicationDbContext.cs:46-49 | deleting a bank with its loans never violates a constraint |
| Store.RemoveLoanTypeConsistent | Data/ApplicationDbContext.cs:51-54 | deleting a loan type with its loans never violates a constraint |
| Store.RemoveLoanConsistent | Data/ApplicationDbContext.cs:39-55 | deleting a loan never violates a constraint: nothing refers to a loan |
| Store.RemovePostConsistent | Data/ApplicationDbContext.cs:64-68 | deleting a post never violates a constraint |
| Store.RemoveSubscriberConsistent | Data/ApplicationDbContext.cs:28-31 | deleting a subscriber never violates a constraint |
| Store.AddLoanConsistent | Data/ApplicationDbContext.cs:39-55 | a new loan satisfies every constraint exactly when its slug is free and its bank and loan type exist |
| Store.AddBankConsistent | Data/ApplicationDbContext.cs:24 | a new bank satisfies every constraint exactly when its slug is free |
| Store.AddLoanTypeConsistent | Data/ApplicationDbContext.cs:35 | a new loan type satisfies every constraint exactly when its slug is free |
| Store.AddPostConsistent | Data/ApplicationDbContext.cs:66 | a new post satisfies every constraint exactly when its slug is free |
| Store.AddSubscriberConsistent | Data/ApplicationDbContext.cs:30 | a new subscriber satisfies every constraint exactly when its e-mail is not subscribed yet |
| Store.ReplaceLoanConsistent | Data/ApplicationDbContext.cs:39-55 | a rewritten loan satisfies every constraint exactly when no other loan has its slug and its bank and loan type exist |
| Store.ReplaceBankConsistent | Data/ApplicationDbContext.cs:24 | a rewritten bank satisfies every constraint exactly when no other bank has its slug |
| Store.ReplaceLoanTypeConsistent | Data/ApplicationDbContext.cs:35 | a rewritten loan type satisfies every constraint exactly when no other type has its slug |
| Store.ReplacePostConsistent | Data/ApplicationDbContext.cs:66 | a rewritten post satisfies every constraint exactly when no other post has its slug |
| Store.SameKeysLoanConsistent | Data/ApplicationDbContext.cs:39-55 | rewriting a loan's non-key columns (view count, flags) never violates a constraint |
| Store.SameKeysPostConsistent | Data/ApplicationDbContext.cs:64-68 | rewriting a post's non-key columns never violates a constraint |
| Store.ApplicationDbContext.constructor | Data/ApplicationDbContext.cs:8 | a context opened on a consistent database holds it and is valid |
| Store.ApplicationDbContext.SaveChanges | Data/ApplicationDbContext.cs:18-76 | a save succeeds exactly when the proposed tables meet every unique index and foreign key; it then stores them, and otherwise changes nothing; validity is kept |
| Listings.FeaturedFirstOrder | Controllers/LoansController.cs:38 | in a list ordered featured first, no featured loan follows an ordinary one, and within each group the most recently updated comes first |
| Listings.NewestFirst | Areas/Admin/Controllers/SubscribersController.cs:21-23 | `OrderByDescending`: the same rows, each once, the largest time first |
| Listings.ActiveBanks | Controllers/LoansController.cs:32 | the bank choices are exactly the active banks, in display order |
| Listings.ActiveLoanTypes | Controllers/LoansController.cs:33 | the loan-type choices are exactly the active types, in display order |
| Listings.TopNewest | Controllers/HomeController.cs:22-28 | `Where(p).OrderByDescending(at).Take(n)`: at most n qualifying rows, largest first |
| Listings.TopNewestOmits | Controllers/HomeController.cs:22-28 | a qualifying row is left out only when the list is full and every listed row is at least as large |
| Listings.RankedBy | Controllers/HomeController.cs:30-37 | `OrderByDescending(first).ThenByDescending(second)`: the same rows, ranked by the first key and then the second |
| Listings.TopRanked | Controllers/HomeController.cs:30-37 | at most n qualifying rows, in that ranking |
| Listings.TopRankedOmits | Controllers/HomeController.cs:30-37 | a qualifying row is left out only when the list is full of rows that rank before it |
| Listings.ActiveLoansOf | Controllers/BanksController.cs:27-30 | a bank's list holds exactly the active loans of that bank |
| Listings.BanksWithLoans | Controllers/BanksController.cs:21-31 | one card per active bank, in display order, each carrying exactly that bank's active loans |
| Listings.BanksWithLoansShows | Controllers/BanksController.cs:21-31 | the cards show only active banks of the store, every active bank, and in non-decreasing display order |
| Loans.Index | Controllers/LoansController.cs:16-40 | the page lists exactly the active loans passing the bank, type and text filters, featured first then newest update first, with the active banks and types as choices; each listed loan appears as many times as it is stored |
| Loans.Query | Controllers/LoansController.cs:18-30 | the query holds exactly the active loans whose bank slug and type slug match the non-blank filters and whose title or short description contains the non-blank search text; each listed loan appears as many times as it is stored |
| Loans.ByType | Controllers/LoansController.cs:96-112 | NotFound exactly when no active loan type has the slug; otherwise that type and exactly its active loans, featured first then newest update first; each listed loan appears as many times as it is stored |
| Loans.FindActive | Controllers/LoansController.cs:44-47 | the first active loan with the slug, and none exactly when no active loan has it |
| Loans.NoAddressAlwaysCounts | Controllers/LoansController.cs:55 | a missing or empty client address never counts as a repeat visit, whatever the visit history |
| Loans.AfterDetail | Controllers/LoansController.cs:44-62 | only the loans table changes, and only the found loan's view count: nothing changes when no active loan has the slug or the same address viewed "/vam/"+slug in the last day; otherwise the count rises by one, wrapping from the int maximum to the int minimum |
| Loans.OtherActive | Controllers/LoansController.cs:64-74 | at most four active loans other than the shown one that satisfy the test, in store order; fewer than four only when no other qualifying loan exists |
| Loans.RelatedLoans | Controllers/LoansController.cs:64-68 | at most four other active loans of the same type |
| Loans.SameBankLoans | Controllers/LoansController.cs:70-74 | at most four other active loans of the same bank |
| Loans.PieceId | Controllers/LoansController.cs:80 | the trimmed piece's Int32 value when it parses, and 0 when it does not |
| Loans.PieceIds | Controllers/LoansController.cs:80 | every piece is parsed on its own, in order |
| Loans.ArticleIds | Controllers/LoansController.cs:79-80 | exactly the positive ints that some non-empty comma-separated piece parses to after trimming |
| Loans.PieceIdsMembers | Controllers/LoansController.cs:80 | a non-zero id is among the parsed pieces exactly when some piece parses to it |
| Loans.PieceIdOfText | Controllers/LoansController.cs:80 | the decimal text of a positive int is non-empty digits and parses back to it |
| Loans.PieceIdsOfTexts | Controllers/LoansController.cs:79-80 | the texts of positive ids survive dropping empty pieces and parse back to the ids |
| Loans.ArticleIdsRoundTrip | Controllers/LoansController.cs:79-80 | writing positive ids comma-separated and reading them back gives the same ids in order |
| Loans.ListedArticles | Controllers/LoansController.cs:77-83 | the explicit list holds exactly the published posts whose id the loan's RelatedArticleIds names, and nothing when that text is empty |
| Loans.RelatedArticles | Controllers/LoansController.cs:76-91 | the explicit list when it finds anything; otherwise at most five published posts that mention the loan, and every such post when fewer than five are listed |
| Loans.DigitsMatchAnywhere | Controllers/LoansController.cs:88 | the fallback matches the id's digits anywhere in RelatedLoanIds, so a post listing loan 12 counts as about loan 1 |
| Loans.Detail | Controllers/LoansController.cs:42-94 | NotFound exactly when no active loan has the slug; the store becomes `AfterDetail` of the old one and stays valid, and the page is read from the new store |
| Loans.CountView | Controllers/LoansController.cs:44-62 | the found loan is the first active one with the slug, and the store becomes `AfterDetail` of the old one |
| Home.FeaturedLoans | Controllers/HomeController.cs:22-28 | at most six loans, all active and featured, the most recently updated first |
| Home.FeaturedAreNewest | Controllers/HomeController.cs:22-28 | an active featured loan is left out only when six loans updated no earlier fill the list |
| Home.HotLoans | Controllers/HomeController.cs:30-37 | at most six active loans, by view count and then by update time, both descending |
| Home.HotAreMostViewed | Controllers/HomeController.cs:30-37 | an active loan is left out only when six loans with more views, or as many and an update no earlier, fill the list |
| Home.LatestLoans | Controllers/HomeController.cs:39-45 | at most six active loans, the most recently created first |
| Home.LatestAreNewest | Controllers/HomeController.cs:39-45 | an active loan is left out only when six loans created no earlier fill the list |
| Home.BubbleLoans | Controllers/HomeController.cs:63-69 | at most twelve active loans whose bank has a logo, the most viewed first |
| Home.BubbleAreMostViewed | Controllers/HomeController.cs:63-69 | a qualifying loan is left out only when twelve loans with at least as many views fill the strip |
| Home.IndexTotals | Controllers/HomeController.cs:47-61 | the bank total equals the number of bank cards, the loan-type total the number of listed types, and the loan total is zero exactly when no loan is active |
| Home.Normalize | Controllers/HomeController.cs:81 | `Trim().ToLowerInvariant()`: no longer than the input, lower case, and with no white space at either end |
| Home.NewSubscriber | Controllers/HomeController.cs:86-93 | the new row holds the normalised address, the trimmed name (missing when none was given), is active, stamped now, with the client address |
| Home.Subscribed | Controllers/HomeController.cs:76-101 | rejected exactly when the address is blank or has no '@'; already subscribed exactly when a valid address's normalised form is taken, and then nothing changes; otherwise exactly the new subscriber is added, or the save fails and nothing changes |
| Home.TrimKeeps | Controllers/HomeController.cs:81 | a character that is not white space survives trimming |
| Home.SubscribeAccepts | Controllers/HomeController.cs:76-101 | on a consistent store subscribing never fails with a server error and the store stays consistent |
| Home.NormalizeKeepsAt | Controllers/HomeController.cs:78-81 | normalising an address with '@' keeps the '@' |
| Home.SubscribeStoresNormalized | Controllers/HomeController.cs:81-96 | after joining, the stored address is the normalised one, which still holds its '@' |
| Home.SubscribeIdempotent | Controllers/HomeController.cs:83-84 | subscribing again with the same address, whatever name, client or time, adds nothing and still reports success |
| Home.Subscribe | Controllers/HomeController.cs:76-101 | the reply and new store are those `Subscribed` gives for the old store |
| Home.Render | Controllers/HomeController.cs:120-130 | each element's line starts with `<url><loc>`, the site root and the page path |
| Home.SitemapLines | Controllers/HomeController.cs:111-132 | the lines are the XML declaration, the `<urlset>` of the Sitemaps 0.9 namespace, one line per element whose location is its page, and `</urlset>` |
| Home.AppendEach | Controllers/HomeController.cs:120-130 | each `foreach` appends exactly one rendered line per row, in row order, after the lines already written |
| Home.Sitemap | Controllers/HomeController.cs:104-135 | the document is the lines of `SitemapLines`, each followed by a newline |
| Home.SitemapCount | Controllers/HomeController.cs:111-132 | there are 4 + active loans + active banks + active loan types + published posts elements |
| Home.SitemapListsLoan | Controllers/HomeController.cs:120-121 | every active loan's page is listed |
| Home.SitemapListsPost | Controllers/HomeController.cs:129-130 | every published post's page is listed |
| Home.SitemapListsBank | Controllers/HomeController.cs:123-124 | every active bank's page is listed |
| Home.SitemapListsLoanType | Controllers/HomeController.cs:126-127 | every active loan type's page is listed |
| Home.SitemapLoansAreActive | Controllers/HomeController.cs:106-121 | a loan URL is listed only when an active loan has that slug |
| Home.SitemapPostsArePublished | Controllers/HomeController.cs:109-130 | a post URL is listed only when a published post has that slug |
| Home.SitemapMatchesTotals | Controllers/HomeController.cs:59-61 | the sitemap lists the four fixed pages, one element per page the home page counts, and the published posts |
| Blog.RankedLaterFirst | Controllers/BlogController.cs:22 | ranking dated posts before undated ones and then by date, both descending, puts the later publication first (SQLite sorts NULL lowest) |
| Blog.Query | Controllers/BlogController.cs:19-22 | the query holds exactly the published posts of the chosen category (any category when none is chosen), the most recently published first and undated ones last |
| Blog.TotalPages | Controllers/BlogController.cs:31-33 | the page count is the ceiling of count / 12: the pages hold every post and the last page is not empty |
| Blog.Window | Controllers/BlogController.cs:37-40 | a page holds at most twelve posts, all from the query |
| Blog.WindowContents | Controllers/BlogController.cs:37-40 | page p holds the posts at positions (p-1)*12 onward of the query, twelve or what is left |
| Blog.PagesCover | Controllers/BlogController.cs:31-40 | every listed post is on an announced page: post i is at position i % 12 of page i / 12 + 1 |
| Blog.LowPagesShowFirst | Controllers/BlogController.cs:38 | a page number of one or less shows the first twelve posts, since a negative offset counts as none |
| Blog.WrappedPageIsEmpty | Controllers/BlogController.cs:38 | page -178956970 overflows (page - 1) * 12 to the offset 2147483644 and shows nothing |
| Blog.Categories | Controllers/BlogController.cs:24-29 | the category menu holds no name twice and is in ordinal order |
| Blog.CategoriesComplete | Controllers/BlogController.cs:24-29 | a name is in the menu exactly when it is non-empty and some published post has it as category |
| Blog.IndexShowsListed | Controllers/BlogController.cs:16-43 | the page shows at most twelve posts, each published and of the chosen category |
| Blog.FindPublished | Controllers/BlogController.cs:47-48 | the first published post with the slug, and none exactly when no published post has it |
| Blog.AfterDetail | Controllers/BlogController.cs:47-53 | only the posts table changes, and only the found post's view count, which rises by one on every request with no repeat test, wrapping from the int maximum to the int minimum; nothing changes when no published post has the slug |
| Blog.AfterDetailConsistent | Controllers/BlogController.cs:52-53 | counting a view keeps the store consistent |
| Blog.RelatedPosts | Controllers/BlogController.cs:55-59 | at most four published posts other than the shown one, the most recently published first |
| Blog.RelatedPostsOmits | Controllers/BlogController.cs:55-59 | another published post is left out only when four posts published no earlier than it fill the list |
| Blog.Detail | Controllers/BlogController.cs:45-62 | NotFound exactly when no published post has the slug; the store becomes `AfterDetail` of the old one and stays valid, and the page shows the post with its related posts from the new store |
| Banks.Index | Controllers/BanksController.cs:19-34 | the page lists the active banks in display order, each with the active loans of that bank |
| Banks.AttachLoans | Controllers/BanksController.cs:26-31 | the loop gives each queried bank, in order, exactly its active loans |
| Banks.Detail | Controllers/BanksController.cs:36-52 | NotFound exactly when no active bank has the slug; otherwise an active bank with the slug and exactly its active loans, featured ones first; each listed loan appears as many times as it is stored |
| Banks.SearchName | Controllers/BanksController.cs:62 | the searched name holds no space |
| Banks.SearchNameOfWord | Controllers/BanksController.cs:62 | a one-word name, bare or after the "bank" prefix, is searched for as that word |
| Banks.NumberOr | Controllers/BanksController.cs:88-96 | an absent coordinate keeps the value it had; a present one must be a number, else the handler fails |
| Banks.Located | Controllers/BanksController.cs:87-94 | a non-object fails; a `lat` member must be a number and gives the latitude alone; without one, a `center` must hold numeric `lat` and `lon` and gives both; with neither, nothing is known |
| Banks.TagText | Controllers/BanksController.cs:98-100 | no tags or no such tag gives the fallback; a string tag gives its text and a null tag none; tags that are not an object, or a tag of another kind, fail |
| Banks.ReadBranch | Controllers/BanksController.cs:87-103 | an element reads without error exactly when its position reads, a `lon` member is a number and `tags`, if present, is an object whose name and street are strings or nulls; it is a branch exactly when both coordinates are known, with `lon` overriding the center's; the name falls back to the bank's and the address to none |
| Banks.NodeIsBranch | Controllers/BanksController.cs:88-103 | a node with numeric lat and lon and a string name tag becomes a branch under that name at that point, without an address |
| Banks.WayIsBranch | Controllers/BanksController.cs:90-99 | a way without its own lat is placed at its center and, without tags, carries the bank's own name |
| Banks.NodeWithoutLonIsSkipped | Controllers/BanksController.cs:88-102 | a node with lat but no lon yields no branch |
| Banks.TagsMustBeAnObject | Controllers/BanksController.cs:98-99 | a tags property that is not an object makes the name lookup throw |
| Banks.BranchesFailFrom | Controllers/BanksController.cs:85-111 | an element that throws makes the whole search fail, whatever follows it |
| Banks.BranchesFromElements | Controllers/BanksController.cs:84-104 | when the search succeeds, every element was read, each listed branch comes from an element, and every element that yields a branch has it listed |
| Banks.DecodeBranches | Controllers/BanksController.cs:84-104 | the loop over the elements computes exactly `Branches` |
| Banks.Nearby | Controllers/BanksController.cs:55-112 | NotFound exactly when no bank, active or not, has the slug; a success reports the number of branches it lists; a failure carries one of the two messages |
| Banks.BranchesSucceed | Controllers/BanksController.cs:85-104 | a list whose every element reads decodes |
| Banks.NearbyOutcome | Controllers/BanksController.cs:57-111 | for the first bank with the slug, asked under its search name: a failed exchange or a non-JSON answer gives the search-failed message and a non-2xx status the map-server message; a JSON answer gives branches exactly when `elements` is an array whose every element reads, and then exactly the elements with both coordinates, no more branches than elements; otherwise the search-failed message |
| Banks.NearbyBranches | Controllers/BanksController.cs:55-112 | the handler's reply is `Nearby` of the store it reads |

## Left out

- Sending the welcome e-mail after a sign-up (`Controllers/HomeController.cs:98`, through `Services/EmailService.cs`) is I/O that cannot change the reply or the tables. `Services/EmailService.cs` is outside the model.
- Admin sign-in, cookie authentication and the password check are not part of this model. Neither are the admin dashboard's statistics pages, nor application start-up and seed data in `Program.cs`.
- Turning JSON text into a document, and the body `Json(...)` serialises from its reply, are not modelled. A handler that reads JSON takes the parsed document as a parameter, and the model's reply is the value before serialisation.
- Razor views, `TempData` messages and the help texts the export pages show are not modelled. `ModelState` is the boolean `invalid` apart from the slug test the handlers add themselves.
- Rows come back from SQLite in table order, modelled as the order rows were added. Where a query orders by a column with ties, the model keeps table order for the tied rows; SQLite leaves that order unspecified.
- Floating-point and `decimal` values are kept as the number text that denotes them, because the site never computes with them. `GetDouble` on a number that overflows a `double` is not modelled as a failure.
- Concurrency is not modelled: two requests running at once, and the middleware's asynchronous save racing with a handler's, are outside the model. Each request runs alone against the tables.
- Writing an uploaded cover image to disk is not modelled. The GUID that names the file is the parameter `token`.
- A posted form whose title is null and whose slug is blank makes `GenerateSlug` throw a `NullReferenceException`. The model takes the title as a string and does not model that crash.
- On `Create`, the model always gives the new row the table's next id. EF inserts a posted non-zero `Id` as given, and the save throws when that id is taken; neither is modelled.
- Dates are written with `{UpdatedAt:yyyy-MM-dd}` (`Controllers/HomeController.cs:121,130`) and `{SubscribedAt:yyyy-MM-dd HH:mm}` (`Areas/Admin/Controllers/SubscribersController.cs:50`) in the current culture, which `Program.cs` never sets. The model writes them in the Gregorian calendar of the invariant culture.
- Instants are whole seconds. Sub-second ticks are dropped, which can change ties when rows are ordered by time and the boundary of the one-day repeat test.
- `Environment.NewLine` is taken as "\n", and so are the line breaks inside the verbatim Overpass query.
- The HTTP call to the Overpass service, with its timeout and status code, is the parameter `overpass`. EF Core's `Include` of navigation properties is not modelled: the model reads the related tables by key.
- Unicode case mapping is ASCII: `ToLowerInvariant` and `OrdinalIgnoreCase` fold only 'A'-'Z'. Persian text has no case, so this affects only Latin letters outside ASCII.
- The sitemap's `StringBuilder` is a list of lines joined with newlines.
- Banks.SearchNameOfWord covers only names that are one word, bare or after "بانک ". A name with the "قرض‌الحسنه " prefix is covered only by `Banks.SearchName`'s guarantee that the result holds no space.
- Loans.RelatedLoans states only which loans may appear, and at most four. That every other qualifying loan appears when fewer than four are listed is stated on `Loans.OtherActive`, which both lists are built from.
- Loans.SameBankLoans, like `Loans.RelatedLoans`, leaves completeness to `Loans.OtherActive`.
- AdminBlog.ImageUrl states only the URL's prefix. The extension it ends with is stated by `AdminBlog.ImageUrlExtension`.
- Admin.ReadDecimal accepts every JSON number. `GetDecimal` throws a `FormatException` for a number outside `decimal`'s range (about ±7.9e28), so an import holding, say, `"InterestRate": 1e30` fails and stores nothing, while the model stores the text "1e30".
- AdminBanks.ReadBranches stores a non-string `BranchesJson` as a compact re-serialisation of the parsed value (no whitespace between tokens, control characters as `\u00XX`, other characters unescaped). `GetRawText` stores the element's original text, so the two texts can differ in whitespace and escape spelling while denoting the same JSON value.
- AdminSubscribers.ExportCsv states only that the file starts with the header. The lines after it are stated by `AdminSubscribers.ExportCsvLines` and `AdminSubscribers.ExportCsvHeaderOnly`.
