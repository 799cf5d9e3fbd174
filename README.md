# Meu Escritório Digital — a Dafny model of its server actions

Meu Escritório Digital is a web application for a small law office. Each
account owns one *workspace*. In it the lawyer registers clients, opens
cases for them, attaches documents to the cases, follows a dashboard of
counts and alerts, and exports the client list as a PDF report.

All the work happens in server actions that talk to a hosted relational
store (tables `workspaces`, `profiles`, `workspace_members`, `clients`,
`cases` and `documents`), plus a `documents` bucket of stored files.

This project models those actions over an in-memory store and proves what
they guarantee:

- Workspace isolation.
- The order of the validation checks and the messages they give.
- What the case search filter selects.
- Document-number uniqueness on registration.
- The order of blob and row writes, and what a failure in the middle leaves behind.
- The dashboard counts, alerts and activity feed.
- The sign-up provisioning sequence.
- The pagination of the PDF report.

## Layout

| file | module | models |
|---|---|---|
| `common.dfy` | `Common` | optional form fields, with JavaScript truthiness (`Present`), and action outcomes (`Failure`, `Success`, `Redirect`) |
| `text.dfy` | `Text` | `String.prototype.trim`, `split`, `join` and `replace(/[%_]/g, '')`; the store's `LIKE`/`ILIKE` matcher; decimal printing of counts |
| `seqs.dfy` | `Seqs` | filtering, sorting newest-first and `limit(n)` over a table |
| `store.dfy` | `Store` | the rows of each table; `Backend`, a class whose fields are the tables and the bucket; the workspace resolver `getActiveWorkspaceId` |
| `case_actions.dfy` | `CaseActions` | `src/lib/actions/case.actions.ts` |
| `client_actions.dfy` | `ClientActions` | `src/lib/actions/client.actions.ts` |
| `document_actions.dfy` | `DocumentActions` | `src/lib/actions/document.actions.ts` |
| `auth_actions.dfy` | `AuthActions` | `src/lib/actions/auth.actions.ts` |
| `dashboard.dfy` | `Dashboard` | `src/lib/actions/dashboard.actions.ts` |
| `client_report.dfy` | `ClientReport` | `src/app/api/export/clients/route.ts` |

## How the model is built

**Writes and reads.**
- Actions that write are methods on a `Store.Backend` object. They name the tables they may change in `modifies` clauses. Their `ensures` give the whole new state of those tables for every outcome.
- Reads are functions that `reads` the backend.

**Answers from the hosted services are parameters.** These are whether an insert, update, delete, upload or sign-in succeeded; the new row's id and timestamp; and the signed URL. The clock is a parameter too: `now` in milliseconds, and the start of the month. So are the locale date formatting and the font's text-width measure used by the report.

**The session.** The signed-in user is kept in an `AuthActions.Session` object. Sign-in and sign-up set it, and sign-out clears it. The other actions take the signed-in user as a parameter.

**The workspace resolver.** It answers only when exactly one workspace is owned by the user, because the source asks for a single row.

**Searches are predicates on the rows.** The store's `ilike` is a real `LIKE` matcher (`%` and `_`, ASCII case folding). The lemmas connect it to plain substring containment for wildcard-free text.

**The case search.** `getAllCases` builds a filter by reassigning a query builder; here that is `CaseActions.BuildCaseFilter`, a method returning the filter. Its contract proves that the filter selects exactly the cases the search describes (`Wanted`).

**The PDF export.** It is a loop that keeps the current page, the `y` coordinate and the page number. It is modelled as a method producing, page by page, the drawing operations made on each page. It is proved equal to a page-by-page specification (`PageOps`). Coordinates are exact decimals (`real`). Drawing a page is the list of texts, rectangles and lines placed on it.

## Model

| member | source | states |
|---|---|---|
| Store.ActiveWorkspace | src/lib/actions/case.actions.ts:21-37 | There is an active workspace exactly when a user is signed in and owns exactly one workspace; the id returned is that workspace's. |
| Store.ActiveWorkspaceOfFirst | src/lib/actions/auth.actions.ts:73-77 | A first workspace provisioned for a user becomes that user's active workspace. |
| Store.ActiveWorkspaceOfTwo | src/lib/actions/case.actions.ts:26-35 | Two workspaces with the same owner make the single-row lookup fail, so that user has no workspace. |
| Text.Trim | src/lib/actions/case.actions.ts:56 | `trim()` gives a string that neither starts nor ends with whitespace. It is empty exactly when the input is all whitespace. It leaves an already trimmed string unchanged. |
| Text.TrimContained | src/lib/actions/case.actions.ts:177 | The trimmed string is a substring of the original. |
| Text.TrimRemovesOnlyEnds | src/lib/actions/case.actions.ts:177 | `trim()` removes exactly the leading and the trailing whitespace: the result is, character by character, the slice of the input that starts after the leading whitespace, and everything before and after that slice is whitespace. |
| Text.TrimIdempotent | src/lib/actions/case.actions.ts:177 | Trimming twice is trimming once. |
| Text.Split | src/lib/actions/case.actions.ts:177 | `split(',')` yields at least one piece. No piece contains the separator, and joining the pieces back gives the input. |
| Text.SplitOfJoin | src/lib/actions/case.actions.ts:177-178 | Splitting a join of separator-free parts gives back the parts. |
| Text.TrimEach | src/lib/actions/case.actions.ts:177 | `map(t => t.trim())` keeps the length and trims piece by piece. |
| Text.NonEmpty | src/lib/actions/case.actions.ts:177 | `filter(t => t)` keeps exactly the non-empty strings, never adding any. |
| Text.TrimmedNonEmpty | src/lib/actions/case.actions.ts:177 | The token list holds exactly the non-empty trimmed pieces. |
| Text.TokenOfPiece | src/lib/actions/case.actions.ts:177 | Every token is non-empty and trimmed, and it is the trim of some piece. |
| Text.TrimmedPieceKept | src/lib/actions/case.actions.ts:177 | A piece that is not blank survives, trimmed, as a token. |
| Text.CommaTerms | src/lib/actions/case.actions.ts:176-177 | Every search term is non-empty, trimmed, comma-free and a substring of the search text. |
| Text.CommaTermsWithin | src/lib/actions/case.actions.ts:177 | The split, trim and filter pipeline yields only non-empty, trimmed, comma-free substrings of the input. |
| Text.CommaTermsOfJoin | src/lib/actions/dashboard.actions.ts:50 | Comma-joining non-empty, trimmed, comma-free titles and splitting them back gives exactly those titles, in order. |
| Text.StripWildcards | src/lib/actions/case.actions.ts:174 | `replace(/[%_]/g, '')` leaves no wildcard and changes nothing in wildcard-free text. |
| Text.StripWildcardsKeeps | src/lib/actions/case.actions.ts:174 | Every character other than `%` and `_` is kept exactly as often as it occurs. |
| Text.LikeSurroundedIsContains | src/lib/actions/case.actions.ts:192 | For wildcard-free `q`, `LIKE '%q%'` holds exactly when `q` is a substring. |
| Text.ILikeSurroundedIsContainsFolded | src/lib/actions/case.actions.ts:185 | For wildcard-free `q`, `ILIKE '%q%'` holds exactly when `q` is a substring ignoring letter case. |
| Text.LikeLiteralThenPercent | src/lib/actions/case.actions.ts:192 | For wildcard-free `q`, `LIKE 'q%'` holds exactly when `q` is a prefix. |
| Text.PercentMatchesAll | src/lib/actions/client.actions.ts:96 | `%` alone matches every string. |
| Text.NatToString | src/lib/actions/dashboard.actions.ts:49 | A count prints as a non-empty decimal numeral whose value is the count, without leading zeros. |
| Seqs.Filter | src/lib/actions/case.actions.ts:167-171 | A filtered listing keeps exactly the rows that satisfy the condition, in stored order, each at most as often as stored. |
| Seqs.FilterMultiplicity | src/lib/actions/case.actions.ts:167-171 | Every row that satisfies the condition comes back exactly as often as it is stored; no other row comes back. |
| Seqs.SortDesc | src/lib/actions/case.actions.ts:171 | `order(..., { ascending: false })` returns the same rows, sorted newest first. |
| Seqs.Top | src/lib/actions/dashboard.actions.ts:117-118 | `order(...).limit(n)` keeps `min(n, length)` rows, sorted, each no older than any row left out. |
| CaseActions.CreateCase | src/lib/actions/case.actions.ts:39-78 | The checks run in order: a workspace, then a client, then a title of three or more trimmed characters. Each failure returns its message and inserts nothing. A valid form inserts one case in the workspace, `open` when no status is sent and with no deadline when none is typed, then goes to the client's page. A refused insert stores nothing. |
| CaseActions.Revised | src/lib/actions/case.actions.ts:94-103 | An edit replaces the title, description, case number and status with the form's. The deadline is the parsed form date when one was filled in, and `null` otherwise. It keeps the id, workspace, client and both timestamps. |
| CaseActions.UpdateCase | src/lib/actions/case.actions.ts:80-114 | A short or missing title is refused and nothing changes. Otherwise every case with the form's id is revised, the others are untouched, and the table keeps its length. |
| CaseActions.WithoutCase | src/lib/actions/case.actions.ts:249 | After the delete, exactly the cases with another id remain. |
| CaseActions.DeleteCase | src/lib/actions/case.actions.ts:244-259 | A refused delete removes nothing. Otherwise the cases with that id are removed and success is reported. |
| CaseActions.ClientName | src/lib/actions/case.actions.ts:125 | The embedded `clients (name)`: present exactly when a client with the case's client id exists, and then that client's name. |
| CaseActions.GetCaseById | src/lib/actions/case.actions.ts:116-136 | There is a case exactly when the user has a workspace and exactly one of its cases has the id. The case returned is stored, has the id and belongs to the workspace, and it carries the embedded `clients (name)` of its client. |
| CaseActions.GetCasesByClientId | src/lib/actions/case.actions.ts:138-158 | Nothing without a workspace. Otherwise exactly the workspace's cases of that client, each as often as stored, newest first, each carrying that client's embedded name. |
| CaseActions.MatchingClientIds | src/lib/actions/case.actions.ts:181-190 | The sub-query yields exactly the ids of the workspace's clients whose name matches. |
| CaseActions.IdsOf | src/lib/actions/case.actions.ts:190 | `map(c => c.id)` holds exactly the ids of the listed clients. |
| CaseActions.TitleClauses | src/lib/actions/case.actions.ts:178 | One title-contains clause per term, in the order typed. |
| CaseActions.SearchClauses | src/lib/actions/case.actions.ts:192-196 | Title then case number, plus the client clause exactly when some client matched. |
| CaseActions.BuildCaseFilter | src/lib/actions/case.actions.ts:167-199 | Restricts to the workspace. Adds clauses exactly when a search is typed, built from the wildcard-free text: per comma term, or the three-way clause set. The filter selects exactly the cases `Wanted` describes. |
| CaseActions.TermFilterMeaning | src/lib/actions/case.actions.ts:176-179 | For text with a comma, the filter selects exactly the workspace cases whose title contains one of the terms, ignoring case. |
| CaseActions.TermClausesMeaning | src/lib/actions/case.actions.ts:178 | Some title clause holds exactly when the title contains some term. |
| CaseActions.TermClauseHolds | src/lib/actions/case.actions.ts:178 | The k-th clause holds exactly when the title contains the k-th term. |
| CaseActions.SelectsOfFew | src/lib/actions/case.actions.ts:198 | An `or` of two or three clauses holds when one of them does. |
| CaseActions.PlainFilterMeaning | src/lib/actions/case.actions.ts:181-198 | For comma-free text, the filter selects exactly the workspace cases whose title, case number or client's name contains the text, ignoring case. |
| CaseActions.PlainFilterSelects | src/lib/actions/case.actions.ts:181-198 | The same, for one case. |
| CaseActions.ClientMatchIff | src/lib/actions/case.actions.ts:181-196 | A client id is in the `in` clause exactly when a workspace client with that id has a matching name. |
| CaseActions.SearchResults | src/lib/actions/case.actions.ts:160-209 | The search results are exactly the stored cases `Wanted` describes. |
| CaseActions.GetAllCases | src/lib/actions/case.actions.ts:160-209 | Nothing without a workspace. Otherwise the cases the search selects, each as often as stored, newest first, each carrying its client's embedded name. |
| CaseActions.StatusCountsPartition | src/lib/actions/case.actions.ts:220-236 | The three status counts add up to the number of the workspace's cases. |
| CaseActions.GetCaseStats | src/lib/actions/case.actions.ts:211-242 | Zeros without a workspace. Otherwise each count is the number of the workspace's cases with that status, and together they are all of its cases. |
| ClientActions.ClientsSinceAtMostAll | src/lib/actions/client.actions.ts:53-62 | New clients of the month never outnumber the workspace's clients. |
| ClientActions.ClientIdSet | src/lib/actions/client.actions.ts:74 | `new Set(map(c => c.client_id))` holds exactly the client ids that occur. |
| ClientActions.ClientIdSetAtMostCases | src/lib/actions/client.actions.ts:74 | There are never more distinct client ids than the rows they come from. |
| ClientActions.GetClientStats | src/lib/actions/client.actions.ts:41-80 | Zeros without a workspace. Otherwise these counts: the workspace's clients; those created since the month start, never more than the total; and the distinct clients with an open case, never more than the open cases. |
| ClientActions.GetClients | src/lib/actions/client.actions.ts:82-107 | Nothing without a workspace. Otherwise the workspace's clients that match the search (all of them without one), each as often as stored, newest first. |
| ClientActions.ClientSearchIsSubstring | src/lib/actions/client.actions.ts:96 | For wildcard-free text, a client matches exactly when its name, e-mail or phone contains the text, ignoring case. |
| ClientActions.UnderscoreMatchesAnyName | src/lib/actions/client.actions.ts:96 | The search text is not cleaned, so a search for `_` lists every client with a non-empty name. |
| ClientActions.FormattedIsUuid | src/lib/actions/client.actions.ts:197 | Five hexadecimal groups of lengths 8-4-4-4-12 joined by dashes pass the UUID check. |
| ClientActions.UuidIsFormatted | src/lib/actions/client.actions.ts:197 | Every string passing the UUID check is such a joining of its own hexadecimal groups. |
| ClientActions.GetClientById | src/lib/actions/client.actions.ts:194-221 | An empty or malformed id gives nothing, whatever the store holds. Otherwise there is a client exactly when the workspace has exactly one with that id; it is stored, has the id and belongs to the workspace. |
| ClientActions.CreateClient | src/lib/actions/client.actions.ts:109-159 | Refusals come in order: no workspace, a short name, a failed CPF/CNPJ lookup, then a CPF/CNPJ already held in the workspace. Refusals store nothing. Success appends exactly the typed client and goes to the list. No two clients of a workspace sharing a CPF/CNPJ is preserved. |
| ClientActions.AppendKeepsUnique | src/lib/actions/client.actions.ts:127-150 | Adding a client whose CPF/CNPJ is blank or unused in its workspace keeps the numbers unique. |
| ClientActions.ReviseClient | src/lib/actions/client.actions.ts:173-180 | An edit replaces the name, e-mail, phone and document number with the form's. It keeps the id, workspace and timestamps. |
| ClientActions.ReviseClients | src/lib/actions/client.actions.ts:173-181 | Only the clients with the form's id are revised; the table keeps its length. |
| ClientActions.UpdateClient | src/lib/actions/client.actions.ts:161-192 | A short or missing name is refused and nothing changes. Otherwise only the client with the id is revised, and the action goes to its page. |
| ClientActions.EditCanDuplicateDocument | src/lib/actions/client.actions.ts:168-181 | An edit re-checks no CPF/CNPJ, so it can make two clients of a workspace share one. |
| ClientActions.DeleteClient | src/lib/actions/client.actions.ts:223-240 | An empty id is refused, as is a failed delete; both remove nothing. Otherwise exactly the clients with another id remain. |
| DocumentActions.StoragePathInjective | src/lib/actions/document.actions.ts:41 | Distinct (workspace, case, instant, file name) give distinct storage paths when the ids have no `/`. |
| DocumentActions.UploadDocument | src/lib/actions/document.actions.ts:30-65 | Missing data or an empty file writes nothing. The blob is stored before the row; a failed upload writes no row. A failed insert leaves the blob without a row. Success adds a row with that path and the file's own name. Rows backed by stored blobs stay backed. |
| DocumentActions.DeleteDocument | src/lib/actions/document.actions.ts:91-122 | Missing data changes nothing. The blob is removed before the row; a failed removal keeps both. A failed row delete leaves the row without its blob. On success both the blob and the row are gone. |
| DocumentActions.DownloadUrl | src/lib/actions/document.actions.ts:85 | The signed URL when there is one, `''` otherwise. |
| DocumentActions.WithUrls | src/lib/actions/document.actions.ts:80-86 | Every document keeps its place and gains its download URL and case title. |
| DocumentActions.GetDocumentsByCaseId | src/lib/actions/document.actions.ts:67-89 | Exactly the case's documents, each as often as stored, newest first, each with its URL. |
| DocumentActions.CaseTitle | src/lib/actions/document.actions.ts:151 | The joined case title exists exactly when a case with that id does, and it is that case's title. |
| DocumentActions.GetAllDocuments | src/lib/actions/document.actions.ts:124-160 | Nothing without a workspace. Otherwise exactly the workspace's documents, newest first, each with its URL and its case's title. |
| AuthActions.SignIn | src/lib/actions/auth.actions.ts:12-25 | The dashboard exactly when the credentials are accepted, and the session is then the user's. Otherwise the fixed message, with the session unchanged. |
| AuthActions.SignOut | src/lib/actions/auth.actions.ts:27-32 | The session ends and the action goes to the login page. With no user signed in, no workspace resolves. |
| AuthActions.SignUpProblem | src/lib/actions/auth.actions.ts:41-49 | There is no problem exactly when all four fields are filled, the password has six or more characters and it equals the confirmation. A missing field is reported first. |
| AuthActions.WorkspaceName | src/lib/actions/auth.actions.ts:75 | The workspace is named `Escritório de ` followed by the account's name. |
| AuthActions.SignUp | src/lib/actions/auth.actions.ts:34-95 | A failing check or a refused sign-up stores nothing. Then profile, workspace and owner membership are inserted in order, each only after the previous succeeded, with nothing undone. A sign-up that hands back a session signs the new user in. Without a session the user is told to confirm the e-mail. A user who owned no workspace ends up with the new one as active workspace, and one sent to the dashboard resolves it from the session. |
| AuthActions.ResetRedirect | src/lib/actions/auth.actions.ts:104 | The base URL (or `undefined`) followed by `/reset-password`. |
| AuthActions.RequestPasswordReset | src/lib/actions/auth.actions.ts:97-116 | The service is asked for the typed address with the link `ResetRedirect(baseUrl)`. The action succeeds exactly when the service accepts that request, always with the same reassurance; otherwise it gives the fixed failure. |
| AuthActions.ResetAnswerOnlyFromService | src/lib/actions/auth.actions.ts:109-115 | The message depends only on the service's acceptance. Two addresses the service treats alike get the same message, so the message does not tell whether an account exists. |
| AuthActions.UpdatePassword | src/lib/actions/auth.actions.ts:118-142 | A short password, then a mismatch, are refused before the service is asked. The password changes exactly when both checks pass and the service accepts. |
| Dashboard.OverdueCases | src/lib/actions/dashboard.actions.ts:37-42 | Exactly the workspace's open or pending cases with a deadline before now. |
| Dashboard.InactiveCases | src/lib/actions/dashboard.actions.ts:53-58 | Exactly the workspace's open cases last updated more than thirty days ago. |
| Dashboard.AlertsFor | src/lib/actions/dashboard.actions.ts:45-75 | One or two alerts. The overdue alert is present exactly when a case is overdue, and it comes first. The inactive alert is present exactly when a case is inactive. The all-clear is present exactly when neither is. As in the source, the overdue alert links to its titles joined with commas, and the inactive alert to its titles joined with spaces. |
| Dashboard.SystemAlerts | src/lib/actions/dashboard.actions.ts:26-78 | Nothing without a workspace. Otherwise the successive pushes build exactly the alerts for the workspace's overdue and inactive cases. |
| Dashboard.InactiveLinkMissesTitles | src/lib/actions/dashboard.actions.ts:66 | With two or more titles, no title contains the space-joined search text. |
| Dashboard.InactiveLinkListsNothing | src/lib/actions/dashboard.actions.ts:66 | Two inactive cases: following the link of the inactive alert lists neither. |
| Dashboard.AlertLinkFindsListed | src/lib/actions/dashboard.actions.ts:50 | Following a comma-joined link lists every case the alert counted. This holds when the titles are non-blank and free of commas, wildcards, `&`, `#` and `+`, so that the query string carries them verbatim. |
| Dashboard.AlertLinkFindsOne | src/lib/actions/dashboard.actions.ts:50 | The same, for one of the counted cases. |
| Dashboard.SuccessRate | src/lib/actions/dashboard.actions.ts:123-125 | 0 without cases. Otherwise the exact share `closed·100/total` rounded to the nearest integer, an exact half rounding up. It is at most 100 when closed ≤ total. |
| Dashboard.UpcomingCases | src/lib/actions/dashboard.actions.ts:113 | Exactly the workspace's cases whose deadline lies within the next seven days. |
| Dashboard.ClientActivity | src/lib/actions/dashboard.actions.ts:127-130 | A client's entry carries its name and update time. It is labelled an update exactly when updated more than 1000 ms after creation. |
| Dashboard.CaseActivity | src/lib/actions/dashboard.actions.ts:132-135 | A case's entry carries its title and update time. It is labelled an update exactly when updated more than 1000 ms after creation. |
| Dashboard.ActivityLabels | src/lib/actions/dashboard.actions.ts:128-134 | Each label holds exactly on its side of the 1000 ms gap. |
| Dashboard.ClientActivities | src/lib/actions/dashboard.actions.ts:127 | One entry per client, in order. |
| Dashboard.CaseActivities | src/lib/actions/dashboard.actions.ts:132 | One entry per case, in order. |
| Dashboard.MergeFeed | src/lib/actions/dashboard.actions.ts:137-139 | The feed is newest first, holds `min(4, entries)` entries drawn from the inputs, and no entry left out is newer than one shown. |
| Dashboard.DashboardMetrics | src/lib/actions/dashboard.actions.ts:81-151 | Zeros and an empty feed without a workspace. Otherwise: the workspace's client, open-case, upcoming-deadline and document counts; its success rate, at most 100; and the feed from its three latest clients and cases, with a count equal to its length, at most 4. |
| ClientReport.TableWidth | src/app/api/export/clients/route.ts:51 | The table is 530 points wide and fits inside the page. |
| ClientReport.RowsPerPageValue | src/app/api/export/clients/route.ts:113-122 | `rowsPerPage` is 26, one more than the 25 rows a page holds. |
| ClientReport.CellsSideBySide | src/app/api/export/clients/route.ts:56-65 | Cells start 5 points into their columns, each one column width right of the previous, all inside the table. |
| ClientReport.DrawCells | src/app/api/export/clients/route.ts:91-100 | The loop accumulating `x` draws exactly the cells at the prefix-sum offsets. |
| ClientReport.TableHeaderOps | src/app/api/export/clients/route.ts:43-68 | A shaded band one row high across the table, then the four bold labels. |
| ClientReport.DrawTableHeader | src/app/api/export/clients/route.ts:43-68 | Draws the headings and lowers `y` by exactly 25. |
| ClientReport.RowData | src/app/api/export/clients/route.ts:84-89 | Name, e-mail or `N/A`, phone or `N/A`, and the formatted registration date. |
| ClientReport.RowOps | src/app/api/export/clients/route.ts:70-82 | A row starts with a shaded band one row high across the table exactly when it is even. |
| ClientReport.RowCells | src/app/api/export/clients/route.ts:84-100 | After the band, a row holds its four cells, 15 points below its top. |
| ClientReport.DrawTableRow | src/app/api/export/clients/route.ts:70-103 | Draws one row and lowers `y` by exactly 25. |
| ClientReport.HeaderOps | src/app/api/export/clients/route.ts:6-31 | The title at the top margin, the date right-aligned to the margin, and a rule under both. |
| ClientReport.FooterOp | src/app/api/export/clients/route.ts:33-41 | `Página p de t`, centred at the foot of the page. |
| ClientReport.RowFitsIff | src/app/api/export/clients/route.ts:131 | A row fits above the bottom margin exactly when fewer than 25 rows precede it on its page. |
| ClientReport.TotalPages | src/app/api/export/clients/route.ts:123 | The printed total is the least page count that holds the rows at 25 per page; it is 0 for no rows. |
| ClientReport.TotalPagesIsSourceFormula | src/app/api/export/clients/route.ts:113-123 | The page total is `(n + rowsPerPage - 2) / (rowsPerPage - 1)`, that is `ceil(n / (rowsPerPage - 1))`, with `rowsPerPage` computed from the page geometry. |
| ClientReport.PagesDrawn | src/app/api/export/clients/route.ts:118-143 | The export always draws at least one page. |
| ClientReport.PagesPartitionRows | src/app/api/export/clients/route.ts:130-141 | Pages split the rows without gaps or overlap. Each page holds 1 to 25 rows (none only for an empty list). The last page ends with the last client. |
| ClientReport.ExportClients | src/app/api/export/clients/route.ts:105-143 | Draws exactly `PagesDrawn` pages. Page `k` holds the header, the headings, rows `PageStart(k)` to `PageEnd(k)` at successive slots, striped on even list positions, and its footer with the source's total `TotalPages`. The clients are the list `getClients()` returns without a search (`ClientActions.GetClients` with no query); the contract holds for every list. |
| ClientReport.DrawNextRow | src/app/api/export/clients/route.ts:131-140 | One turn of the loop, with or without a page break, keeps the loop invariant `Drawn` for the next row. |
| ClientReport.OpenPage | src/app/api/export/clients/route.ts:133-137 | A new page holds the header and the headings, and its first row goes 25 points below the headings. |
| ClientReport.ClosePage | src/app/api/export/clients/route.ts:132 | A closed page ends with its own number out of the source's total `ceil(n/25)`. |
| ClientReport.PageClosed | src/app/api/export/clients/route.ts:131-143 | A page closed when full or at the end is the specified page, and a further page follows exactly when rows remain. |
| ClientReport.PagesSoFarStep | src/app/api/export/clients/route.ts:132-134 | Appending the next specified page keeps the finished pages a prefix of the report. |
| ClientReport.ExportFooterAsWritten | src/app/api/export/clients/route.ts:123-143 | The last thing drawn on page `k` is its footer, `k + 1` out of `TotalPages`. |
| ClientReport.FooterCountsPages | src/app/api/export/clients/route.ts:132-143 | With the corrected footer, page `k`'s footer numbers it `k + 1` among as many pages as are drawn. |
| ClientReport.CorrectedAgreesWhenNonEmpty | src/app/api/export/clients/route.ts:123-143 | With at least one client, the report as drawn and the corrected report are the same, page by page. |
| ClientReport.TotalPagesMatchesWhenNonEmpty | src/app/api/export/clients/route.ts:123 | With at least one client, the source's total equals the pages drawn. |
| ClientReport.TotalPagesOfEmptyList | src/app/api/export/clients/route.ts:123 | With no clients one page is drawn, yet the source's total is 0. The exported page's footer reads `Página 1 de 0`, and the corrected one reads `Página 1 de 1`. |

## Left out

- Read errors from the store: a failed read is logged and defaulted to empty, zero or `null`. The model gives the successful answer. Failures are modelled only for writes, uploads, sign-in, sign-up and password calls.
- The text of the PostgREST `or(...)` filter. Search text containing `,`, `(` or `.` can change how that text is parsed. The model gives the filter's intended meaning as clauses over rows.
- The escape character of `LIKE`. Letter case is folded for ASCII letters only; other Unicode case mappings are not modelled.
- String lengths are counted in characters, not UTF-16 code units.
- Concurrency: the parallel reads of the dashboard and of the URL signing are done one after another. No interleaving of requests is modelled.
- Database defaults and triggers:
  - the row ids and `created_at` are parameters;
  - no trigger touches `updated_at`, so `updateCase` and `updateClient` keep it;
  - cascading deletes of a client's cases or a case's documents are not modelled.
- Dates: `deadline` is compared as an instant, with no date-versus-timestamp conversion and no time zone or daylight-saving handling. The month start and the seven-day window are given in milliseconds.
- Sort ties: rows with equal timestamps may come back in any order. The contracts state the sort order and the multiset of rows, not the order among ties.
- `revalidatePath`, `noStore` and `console.error` are not modelled. `redirect` is an outcome.
- PDF output: fonts, colours, and the serialised bytes.
  - Coordinates are exact decimals rather than floating point.
  - The page width is the library's default A4 width.
  - `widthOfTextAtSize` and `toLocaleDateString` are parameters.
  - The error branch of `GET` is not modelled.
- Dashboard.AlertLinkFindsListed: stated only for titles that are non-blank and free of commas, `%`, `_`, `&`, `#` and `+`. A title containing a comma splits into several search terms, and wildcards are stripped from the search text.
  - The link is handed to the browser unencoded, and the cases page reads its `query` parameter after URL parsing. `&` ends the parameter, `#` starts the fragment, `+` reads as a space, and `%` followed by two hex digits is decoded. The URL layer itself is not modelled: the lemma takes the search text to be the joined titles verbatim.
- Dashboard.SuccessRate: computes the share exactly, where the source divides and multiplies in floating point before `Math.round`. A share that is exactly a half can come out one lower in the source: 23 closed of 40 gives 57 there and 58 here, and likewise 29 of 200, 57 of 200 and 46 of 80. IEEE-754 doubles are not modelled.
- CaseActions.UpdateCase: the status field is always present. The edit form always sends it; a request without it would write `null` into `status`, which the model cannot represent.
- AuthActions.UpdatePassword: both password fields are always present. The reset form always sends them; without `password` the source throws on `password.length`, an exception the model does not represent.
- AuthActions.SignUp and AuthActions.SignIn: the session is the signed-in user only. Cookies, token refresh and expiry are not modelled.
- DocumentActions.DeleteDocument: keeps rows backed by blobs only when the path given belongs to no other row. The source does not check the path against the row.
- DocumentActions.GetDocumentsByCaseId: like the source, it does not restrict to the user's workspace.
- DocumentActions.UploadDocument: the storage path uses the upload instant `now`, and the row's `created_at` is that same instant.

## Findings

| source | as written | input that shows it | evidently intended | confidence | as-written member | corrected member |
|---|---|---|---|---|---|---|
| src/app/api/export/clients/route.ts:123 | `totalPages = Math.ceil(clients.length / (rowsPerPage - 1))` is 0 for an empty list, but the loop still draws one page and its footer | no clients: the only page's footer reads `Página 1 de 0` | the footer's total counts the pages drawn, at least 1 | high; not executed | ClientReport.TotalPagesOfEmptyList | ClientReport.FooterCountsPages |
| src/lib/actions/dashboard.actions.ts:66 | the inactive-case link joins the titles with `' '`, so the case search sees no comma and looks for the whole text in each title | two inactive cases titled `Divorcio` and `Inventario`: the link searches `Divorcio Inventario`, which neither title contains, so the listing is empty | join with `','`, as the overdue link does at line 50, so the search lists every counted case | high; not executed | Dashboard.InactiveLinkListsNothing | Dashboard.AlertLinkFindsListed |

In both rows the operations model the program as written, and the corrected behaviour sits beside them:

- `ExportClients` prints `TotalPages` in its footers, as the source does. `CorrectedPageOps` is the report whose footers print `FooterTotal`, the number of pages drawn. It agrees with the exported report whenever there is a client.
- `SystemAlerts` gives the inactive alert the space-joined link `InactiveLinkAsWritten`. `AlertLink`, the comma join the overdue alert uses, is the corrected link, and `AlertLinkFindsListed` is proved about it.
