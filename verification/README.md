# Inventory control: a model of the client libraries, scripts and database service

This project models the parts of an inventory application that decide something: how its web and mobile
clients parse, price, rank, cache and retry, how two of its scripts write and check stock, and how its database
service carries tenant settings into every transaction. Each file of the model stands for one or two source
files. Code that changes variables step by step is a class or a loop, and every such method is proved equal to a
function of its inputs and old state; the results below are about those functions, over every input, every run or
every interleaving.

| file | what it models |
|---|---|
| `Csv.dfy` | the CSV printer, the character machine that reads it back, and records |
| `LoginLockout.dfy` | the login lockout on a phone, as a timed machine over failing storage |
| `TokenRefresh.dfy`, `MobileRefresh.dfy` | one refresh shared by concurrent 401s, on the web (with a rotating cookie) and on mobile |
| `RefreshOutcomes.dfy` | what the web protocol comes to: how a waiting request ends, when a stale cookie is shown, when a login survives |
| `BidQuotes.dfy`, `BidAllocation.dfy`, `BidScores.dfy` | split allocations, plans, costs, and the ranking of quotes |
| `SalesGst.dfy` | rounding to paise, the GST split, supply type conversion, order totals |
| `TenantTransactions.dfy` | tenant settings in model queries, batches and interactive transactions |
| `PoRemarks.dfy` | a document hidden in free-text remarks, and per-line tax kept in it |
| `StockReconciliation.dfy` | stock summary against stock ledger |
| `ProductCache.dfy`, `OverlappingCreates.dfy` | an optimistic create against a direct insert, alone and with others in flight |
| `DemoLedger.dfy` | documents, ledger rows and number sequences that are created only when missing |
| `PercentEncoding.dfy`, `BrowserCookies.dfy` | percent-encoding (section 2.1 of RFC 3986) and cookies (sections 4.2.1 and 5.2 of RFC 6265) |
| `Scanner.dfy` | the barcode scanner's lock, tail and cooldown |
| `CursorPaging.dfy` | paged reads and page slicing |
| `JsText.dfy`, `Options.dfy` | the string operations and the option type the others share |

Clocks, network replies, storage failures, JSON, form values and the server's answers are parameters or events with
every possible outcome. Money, quantities and scores are exact reals, rounded where the source rounds, halves
upwards. A string is a sequence of characters, of which none is half of a surrogate pair.

Properties that turn out to hold only under a condition are stated with that condition, both ways:

- A CSV table comes back cell by cell exactly when it has a column and its last row is not a single empty cell;
  read as records it always comes back, apart from trimming, the apostrophe, blank rows and a column headed `__proto__`.
- The lockout's bound of five holds, in every run, exactly when two reads of the key's own presses succeed: the one
  that asks for a lock and the one that counts a failure. Each failed one of the first kind allows one more failure in
  a window, each of the second kind four more, and that bound is reached. The third read, deletes and other keys do
  not matter; each failed write lets one more rejected guess through uncounted.
- The lock never comes before five failures exactly when the deletes after the key's own accepted logins succeed.
- A rotated-away refresh cookie is presented exactly when a refresh starts while a lost rotation is unhealed, whether
  it was lost on this page or before it loaded: the jar has got no other cookie since, and the server has not ended
  the session. The server's answer ends the session, however other steps interleave. If the answer arrives, a 401's
  refresh signs the user out, and the bootstrap's does so exactly when the page then holds no token or the one the
  bootstrap began with; if the answer is lost, the page keeps its token.
- A login made while refreshes are pending keeps its token under every schedule exactly when no request waits for a
  call or holds a reply other than an outage, and the bootstrap neither holds a renewal nor waits for one: the
  bootstrap's failure branch has a guard that the interceptor lacks. On the phone it does exactly when no request
  waits for a call or was left without a token and no posted call may still be answered.
- Changing a valid line's supply type keeps its money exactly when its rate has at most two decimals.
- Accepted non-negative splits keep a plan within its supplier's lines exactly when for each line the RFQ items that
  stand for it, each with the lesser of what it asks for and what is quoted, ask together for no more than is quoted;
  the check itself looks at one item at a time. The plans hold of an item exactly its positive entries.
- Dominance needs both lead times stated, or neither: a silent quote beats a stated one of its price exactly when the
  stated lead time is past the middle of the range and the lead time counts at all.
- Every query sees its caller's settings exactly when callbacks query only through the client they are given, and an
  operation opens one transaction exactly when its callbacks start no batch or interactive transaction of their own.
- Remarks with a document come back exactly when the human text does not contain the marker; remarks without one,
  exactly when it does not or what stands behind its first marker does not parse.
- An optimistic create equals a direct insert exactly when no surviving row is temporary or has the new id.
- When creates overlap, the list is at every point as if the failed ones had never begun exactly when each failure
  finds its own optimistic row to be the last thing written. Two creates end right exactly when both are answered, or
  the newer one fails before the older one settles; otherwise the rollback brings back a temporary row, loses a
  created one, or loses a count, and no refetch follows a failure.
- A posted document cut off while its ledger rows are written agrees with the ledger exactly when all of them were,
  and repeating the call mends nothing but a product without its assignment.
- A cookie with an empty name never holds anything; every other name reads as it was last written.
- A reopened scanner is safe exactly when no scan and no timer is left over from before.

## Model

| member | source | states |
|---|---|---|
| Csv.Tokenize | apps/web/src/lib/csv.ts:67-115 | the index loop with its two-character skip computes the reader whose inverse properties are proved below |
| Csv.ScanCell | apps/web/src/lib/csv.ts:14-24 | an escaped cell, quoted or not, is read back as its guarded text wherever a separator follows |
| Csv.QuotedExactly | apps/web/src/lib/csv.ts:20-23 | a cell is quoted if and only if its text holds a quote, a comma or a line break |
| Csv.UnclosedCellIsRead | apps/web/src/lib/csv.ts:67-115 | a quoted cell that is never closed is read to the end of the text |
| Csv.ScanLines | apps/web/src/lib/csv.ts:26-32 | after a printed table the reader has closed every row but the last, cell by cell, with the last cell still open |
| Csv.RoundTrip | apps/web/src/lib/csv.ts:26-32 | printing and reading back a table is the identity on guarded cells if and only if there is a column and the last row is not one empty cell |
| Csv.ExportReadsBack | apps/web/src/lib/csv.ts:51-65 | for all rows and columns, parsing an export gives one record per non-blank row with its guarded cells under its guarded headers |
| Csv.ParseCsv | apps/web/src/lib/csv.ts:51-65 | the row and header loops compute the records the lemmas speak of |
| Csv.RecordLookup | apps/web/src/lib/csv.ts:59-63 | a header's entry is the trimmed cell of its last column, empty when the row is short |
| Csv.RecordKeys | apps/web/src/lib/csv.ts:59-63 | the keys of a record are its headers, except `__proto__`, to which a plain object takes no text |
| Csv.RecordsGrowByRow | apps/web/src/lib/csv.ts:56-64 | each row gives one record, in order, unless its cells hold nothing but white space |
| Csv.BlankMeansSpaces | apps/web/src/lib/csv.ts:57-57 | the rows left out are exactly those with nothing but white space in every cell |
| Csv.BomIsIgnored | apps/web/src/lib/csv.ts:55-55 | a leading byte order mark never changes what is parsed, even before a quoted first cell |
| Csv.ExportedTextIsInert | apps/web/src/lib/csv.ts:11-19 | no exported text starts with `=`, `+`, `@`, a tab, a return, or a minus without a number; text that would gains one apostrophe and every other is left as it is |
| LoginLockout.LoginProtection.CheckLoginLocked | apps/mobile/src/lib/login-protection.ts:15-41 | result and stored record after the check: the minutes left rounded up, an expired lock cleared if the delete succeeds |
| LoginLockout.LoginProtection.RecordFailedLogin | apps/mobile/src/lib/login-protection.ts:43-70 | the stored record after a failure, locked from the fifth on |
| LoginLockout.LoginProtection.OnLogin | apps/mobile/app/(auth)/login.tsx:98-158 | alert, whether the attempt was sent, and the store, for every outcome and every storage failure |
| LoginLockout.BudgetRun | apps/mobile/src/lib/login-protection.ts:15-87 | in every timely run, whatever storage calls fail, the stored record and what failed reads have spent account for the failures of an open window |
| LoginLockout.FailuresPerWindow | apps/mobile/src/lib/login-protection.ts:11-70 | in every run with a non-decreasing clock a half-open 15-minute window without a success holds at most five recorded failures of a key, one more for each failed check among them and four more for each failed count |
| LoginLockout.FiveFailuresPerWindow | apps/mobile/src/lib/login-protection.ts:11-70 | so at most five where the key's presses can read its record both times |
| LoginLockout.BoundIsReached | apps/mobile/src/lib/login-protection.ts:43-70 | for every number of failed checks and failed counts there is a run that reaches that bound |
| LoginLockout.LockHolds | apps/mobile/app/(auth)/login.tsx:108-116 | from the moment a key is locked until the lock ends, every press on it that can read the record is refused unsent with a lock alert, and the record does not move |
| LoginLockout.SentExactlyWhenUnlocked | apps/mobile/app/(auth)/login.tsx:99-121 | a press is sent if and only if the form is filled and the key is not locked at that reading |
| LoginLockout.MinutesInRange | apps/mobile/src/lib/login-protection.ts:26-29 | every lock alert of every timely run names 1 to 15 minutes, whatever storage calls fail |
| LoginLockout.MinutesAreRoundedUp | apps/mobile/src/lib/login-protection.ts:26-29 | every lock alert, before sending or after a failure, gives what is left of the stored lock at its reading, rounded up to whole minutes |
| LoginLockout.WaitingIsEnough | apps/mobile/src/lib/login-protection.ts:26-33 | on the record that an alert of m minutes leaves, a readable press is sent m minutes after the reading and still refused a minute earlier |
| LoginLockout.RejectionIsRecorded | apps/mobile/src/lib/login-protection.ts:43-70 | a stored rejection leaves one failure more than it could read, at its own time, and from the fifth on a lock of 15 minutes from the writing; other keys are untouched |
| LoginLockout.AlertsTellOutcomes | apps/mobile/app/(auth)/login.tsx:98-158 | which alert tells what: each outcome has its own, and a rejection names a lock if and only if the press can read that its record is locked |
| LoginLockout.UnrejectedStore | apps/mobile/src/lib/login-protection.ts:31-34 | what every other press leaves: the key's record goes after an accepted login or when read with a lock that is over, and only if the delete succeeds |
| LoginLockout.NoLockBeforeFive | apps/mobile/src/lib/login-protection.ts:56-62 | while the deletes after its accepted logins succeed, a locked key has at least five failures since its last success |
| LoginLockout.FailedDeleteLocksEarly | apps/mobile/src/lib/login-protection.ts:72-87 | after any one to four failures and an accepted login whose delete fails, only the missing failures lock the key |
| LoginLockout.EarlyLockRestsOnDelete | apps/mobile/src/lib/login-protection.ts:72-87 | for every key, the lock never comes early in runs whose deletes after accepted logins fare one way if and only if they succeed |
| LoginLockout.OnlyRejectionsCount | apps/mobile/app/(auth)/login.tsx:132-140 | the recorded failures of a run are exactly its sent, rejected and stored attempts: outages never count |
| LoginLockout.BoundRestsOnTwoReads | apps/mobile/src/lib/login-protection.ts:15-101 | for every key, all timely runs whose two deciding reads fare one way keep the bound of five if and only if both succeed |
| LoginLockout.UnreadRecordsNeverLock | apps/mobile/src/lib/login-protection.ts:89-101 | with either of the two reads failing, alone or with the other, one window holds any number of recorded failures |
| LoginLockout.GuessesPerWindow | apps/mobile/src/lib/login-protection.ts:64-68 | a window holds at most five rejected guesses that reached the server, one more for each whose write failed, and what failed reads allow |
| LoginLockout.UnwrittenRecordsNeverLock | apps/mobile/src/lib/login-protection.ts:64-68 | with writes that always fail any number of rejected guesses is sent in one window and none is recorded |
| TokenRefresh.WebClient.RefreshRequestOnce | apps/web/src/api/client.ts:110-122 | shares the call in flight or starts one with the cookie in the jar |
| TokenRefresh.WebClient.OnResponseError | apps/web/src/api/client.ts:131-144 | the interceptor up to its await: the four guards, retry mark, and join of the shared call |
| TokenRefresh.WaitsExactly | apps/web/src/api/client.ts:28-31 | for every address and interleaving, a request's first 401 joins the refresh in flight, or starts one with the cookie in the jar, if and only if it was sent with a header and its address contains neither `/auth/login` nor `/auth/refresh`; otherwise nothing is asked of the server |
| TokenRefresh.PublicAuthIsSentOnce | apps/web/src/api/client.ts:141-149 | in every run a request to the login or the refresh is sent once and never waits |
| TokenRefresh.AnsweredIsOver | apps/web/src/api/client.ts:131-161 | a request that gets any other reply is over for good, and nothing is asked of the server for it |
| TokenRefresh.RefreshNeverAwaitsItself | apps/web/src/api/client.ts:28-31 | the refresh call's own 401 is finished without a refresh, whatever the base address and whatever happens meanwhile |
| TokenRefresh.WebClient.AfterRefresh | apps/web/src/api/client.ts:144-160 | the interceptor after its await: resend under the new token, clear on rejection, keep on outage |
| TokenRefresh.WebClient.BootstrapSession | apps/web/src/main.tsx:30-48 | the bootstrap up to its await, sharing the same call |
| TokenRefresh.BootstrapBegins | apps/web/src/main.tsx:30-48 | a token that the page kept goes into the header at once, and a refresh is asked for or shared unless there is no token and nobody ever logged in |
| TokenRefresh.WebClient.AfterBootstrapRefresh | apps/web/src/main.tsx:49-60 | the bootstrap after its await, with the guard on the token it started with |
| TokenRefresh.RunKeepsInv | apps/web/src/api/client.ts:110-162 | every interleaving of requests, 401s, answers, arrivals, losses, logins and expiries keeps the protocol's invariant |
| TokenRefresh.SharedRefresh | apps/web/src/api/client.ts:113-149 | at every point at most one refresh is out, every waiter waits for it, and no request is sent a third time |
| TokenRefresh.StaleOnlyAfterLoss | apps/web/src/api/client.ts:110-112 | a rotated-away cookie is presented only after a rotation was lost, on this page or before it loaded |
| RefreshOutcomes.JarIsStaleExactly | apps/web/src/api/client.ts:110-112 | in every run of a loaded page, with no call out, the jar holds a rotated-away cookie if and only if it did on loading or a rotation of its session was lost, and neither a new cookie nor the end of the session has healed that |
| RefreshOutcomes.StaleShownExactly | apps/web/src/api/client.ts:110-122 | a run presents a rotated-away cookie if and only if it starts a refresh at a point where a lost rotation is unhealed |
| RefreshOutcomes.StaleRefreshEndsSession | apps/web/src/api/client.ts:110-158 | from any page with a stale jar and no call out, the next eligible 401 presents it, and in every interleaving its arrived answer ends the session on both sides |
| RefreshOutcomes.StaleBootstrapEndsSession | apps/web/src/main.tsx:46-60 | a bootstrap on a stale jar presents it and its answer ends the server's session; the page signs out if and only if it then holds no token or the one it began with |
| RefreshOutcomes.LostAnswerClearsNothing | apps/web/src/api/client.ts:144-158 | a waiting request whose answer is lost ends and leaves token and header as they then are, in every interleaving |
| RefreshOutcomes.LostRotationSignsOut | apps/web/src/api/client.ts:110-158 | whenever a rotation of a session still open is lost, the next eligible 401 shows the stale cookie and signs out, whatever happens beside it |
| RefreshOutcomes.ExpiredSessionSignsOut | apps/web/src/api/client.ts:124-158 | a session that the server ends while its refresh is out signs the user out in every interleaving |
| RefreshOutcomes.ArrivalRenewsJar | apps/web/src/api/client.ts:110-122 | a rotation that arrives leaves a cookie the server accepts in the jar, unless it ended the session meanwhile |
| RefreshOutcomes.WaiterHears | apps/web/src/api/client.ts:113-144 | whatever else happens, a waiting request keeps waiting until its own call's answer arrives, and then holds that answer |
| RefreshOutcomes.RefreshDecides | apps/web/src/api/client.ts:141-158 | from a 401 to its end in every interleaving: resent once under the new token if the server accepted the cookie when it answered, and usably, otherwise signed out |
| RefreshOutcomes.ExpiredRequestRoundTrip | apps/web/src/api/client.ts:110-158 | from sending to its end in every interleaving: a request with a header, outside the login and the refresh, is sent once more after its 401 if the jar's cookie is still its session's latest when the server answers, and usably, and otherwise the user is signed out |
| RefreshOutcomes.BootDecides | apps/web/src/main.tsx:46-60 | from the bootstrap's refresh to its end in every interleaving: the new token if the cookie was accepted, and usably, otherwise signed out if and only if the page then holds no token or the one it began with |
| RefreshOutcomes.LoginSurvivesExactly | apps/web/src/api/client.ts:144-157 | a login's token outlives every schedule of what is pending if and only if no request waits or holds a reply other than an outage and the bootstrap has no renewal to come |
| TokenRefresh.ClearedOnlyWhenRejected | apps/web/src/api/client.ts:150-157 | no step but a resume after a rejected or unusable refresh takes the token away |
| TokenRefresh.OutagesNeverSignOut | apps/web/src/api/client.ts:125-129 | from a signed-in page with a current cookie no calm interleaving of requests, 401s, outages and logins ever signs out or shows a stale cookie |
| TokenRefresh.HeaderAgrees | apps/web/src/api/client.ts:61-67 | the default header is never left holding a token that the store does not hold |
| TokenRefresh.BootstrapKeepsNewerToken | apps/web/src/main.tsx:50-57 | in every run the bootstrap's failure branch keeps a token if and only if the failure was an outage or the token is not the one it began with, as no token issued later is |
| MobileRefresh.MobileClient.OnResponseError | apps/mobile/src/api/client.ts:130-147 | the mobile interceptor up to its await: the four guards, retry mark, and join of the shared call |
| MobileRefresh.WaitsExactly | apps/mobile/src/api/client.ts:90-93 | for every address and interleaving, a first 401 joins the shared promise, or starts one with the refresh token then stored, if and only if the request was sent within a session and its address contains neither `/auth/mobile/login` nor `/auth/mobile/refresh` |
| MobileRefresh.PublicAuthIsSentOnce | apps/mobile/src/api/client.ts:130-139 | in every run a request to the login or the refresh is sent once and never waits |
| MobileRefresh.AnsweredIsOver | apps/mobile/src/api/client.ts:125-159 | a request that gets any other reply is over for good |
| MobileRefresh.RefreshNeverAwaitsItself | apps/mobile/src/api/client.ts:90-93 | the refresh call's own 401 is finished without a refresh, whatever happens meanwhile |
| MobileRefresh.MobileClient.AfterRefresh | apps/mobile/src/api/client.ts:147-157 | the mobile interceptor after its await |
| MobileRefresh.SharedRefresh | apps/mobile/src/api/client.ts:128-159 | in every interleaving all waiting 401s wait for one call, and no request is sent a third time |
| MobileRefresh.AnyFailureSignsOut | apps/mobile/src/api/client.ts:101-155 | in every interleaving a waiting request is resent if its call was posted, answered with a payload and saved, and ends the session otherwise: an outage, a failed save or a missing refresh token signs out like a rejection |
| MobileRefresh.LoginSurvivesExactly | apps/mobile/src/api/client.ts:139-156 | a login's session outlives every schedule of what is pending if and only if no request waits or was left without a token and no posted call may still be answered |
| BidAllocation.LinkedLineWins | apps/web/src/lib/bid-comparison.ts:139-150 | the first line linked to the RFQ item is found, at whatever position |
| BidAllocation.PositionDecidesUnlinked | apps/web/src/lib/bid-comparison.ts:148-149 | without a linked line the line at the item's position is used, if there is one |
| BidAllocation.TotalAllocated | apps/web/src/lib/bid-comparison.ts:208-214 | the sum of a row, whatever order its entries are visited in |
| BidAllocation.ValidateAllocations | apps/web/src/lib/bid-comparison.ts:171-206 | the error list entry by entry, and valid if and only if every item's total is within its requirement and every positive entry within a quoted line |
| BidAllocation.ErrorsNameEveryExcess | apps/web/src/lib/bid-comparison.ts:176-205 | an error is reported if and only if it names an item given more of than it asks for, with the amount, or a quote given some of an item it has no line for or more than its line quotes, with both amounts |
| BidAllocation.PlanLinesAreHonoured | apps/web/src/lib/bid-comparison.ts:241-269 | of an accepted split, every plan line has the allocated quantity and the price of one of that supplier's own lines and stays within its quantity |
| BidAllocation.PlansShowSplit | apps/web/src/lib/bid-comparison.ts:241-283 | a plan has a line for exactly the items of which its quote is given some, showing what is asked, quoted and given, the price and their product; it counts its lines and is kept if it has any |
| BidAllocation.PlansHoldPositives | apps/web/src/lib/bid-comparison.ts:236-283 | for every split, the plans together hold of an item exactly the positive entries of the active quotes |
| BidAllocation.SoundAllocation | apps/web/src/lib/bid-comparison.ts:171-283 | of an accepted split, all plans together never exceed the required quantity of an item whose own entries are not negative |
| BidAllocation.LinesAreKeptExactly | apps/web/src/lib/bid-comparison.ts:139-205 | for non-negative quantities, all accepted non-negative splits keep a plan within each of its supplier's lines if and only if for each line the sum of the lesser of asked and quoted over the items standing for it is at most what is quoted |
| BidAllocation.OwnLinesAreKept | apps/web/src/lib/bid-comparison.ts:139-205 | where no two RFQ items stand for one line, an accepted plan stays within every line |
| BidAllocation.NegativeEntryHidesExcess | apps/web/src/lib/bid-comparison.ts:180-184 | whatever an item asks for, a negative entry lets the check accept a split whose plans order all of any line that quotes more |
| BidAllocation.AllocatedCostByQuote | apps/web/src/lib/bid-comparison.ts:216-234 | the item-by-item loops leave every quote's cost in the table |
| BidAllocation.PlansAreWorthCosts | apps/web/src/lib/bid-comparison.ts:216-283 | every built plan's total value is its quote's entry in the cost table |
| BidAllocation.NoPlanNoCost | apps/web/src/lib/bid-comparison.ts:222-282 | an active quote without a plan costs nothing |
| BidAllocation.TraversalsAgree | apps/web/src/lib/bid-comparison.ts:216-283 | the plans together are worth the costs together |
| BidAllocation.ClearRemovesOnePlan | apps/web/src/lib/bid-comparison.ts:285-296 | clearing removes one quote's plan and leaves all others as they were, in order |
| BidAllocation.ClearKeepsValid | apps/web/src/lib/bid-comparison.ts:285-296 | clearing keeps a valid non-negative split valid |
| BidScores.ComputeBidScores | apps/web/src/lib/bid-comparison.ts:68-137 | the table is the ranked stable sort of the scored active quotes |
| BidQuotes.ActiveInTurn | apps/web/src/lib/bid-comparison.ts:57-61 | the active quotes are the posted ones with a line, in their order and each as often as it is listed |
| BidScores.TotalsAdd | apps/web/src/lib/bid-comparison.ts:52-55 | a quote's total is nothing without lines, the line value of one line, and the sum of both parts of any split |
| BidScores.TotalIgnoresOrder | apps/web/src/lib/bid-comparison.ts:52-55 | and does not depend on the order of the lines |
| BidScores.RowShowsQuote | apps/web/src/lib/bid-comparison.ts:78-132 | a row shows its quote's id, its stated days or zero, and a total that each further line raises by its line value |
| BidScores.ScoresInRange | apps/web/src/lib/bid-comparison.ts:99-131 | all three scores are 0 to 100; the cheapest priced and the fastest stated quote score 100 |
| BidScores.WorstScoresZero | apps/web/src/lib/bid-comparison.ts:101-110 | the dearest and the slowest score 0 when there is a difference |
| BidScores.SilenceScores | apps/web/src/lib/bid-comparison.ts:97-116 | without a price a quote gets full marks for it; without a lead time half marks if another states one, and full marks if none does |
| BidScores.WeightIsThePrices | apps/web/src/lib/bid-comparison.ts:75-119 | the weight belongs to the price and is clamped: at either end only one score counts |
| BidScores.DominanceKeepsScore | apps/web/src/lib/bid-comparison.ts:92-131 | for every weight, a quote no dearer and no slower never has a lower score, whether or not its price is positive |
| BidScores.LinesDecideScore | apps/web/src/lib/bid-comparison.ts:52-131 | a quote whose lines can be paired with another's so that none is dearer, and that is no slower, never scores lower at any weight |
| BidScores.SilenceBeatsSlownessExactly | apps/web/src/lib/bid-comparison.ts:107-119 | for any differing stated lead times, a silent quote has the better lead score than a stated one if and only if that is past the middle, and of one price the better weighted score if and only if the lead time also counts |
| BidScores.SortIsStable | apps/web/src/lib/bid-comparison.ts:135-135 | of two rows the earlier stays ahead unless it scores less |
| BidScores.RanksFollowScores | apps/web/src/lib/bid-comparison.ts:135-136 | each active quote once, ranks 1 to n, weighted score never rising down the table |
| BidScores.DominantQuoteRanksAhead | apps/web/src/lib/bid-comparison.ts:68-137 | a quote that dominates a later one is ranked ahead of it |
| BidScores.LinesDecideRank | apps/web/src/lib/bid-comparison.ts:52-137 | and is ranked ahead of it if it is listed earlier |
| SalesGst.LineIsComputed | apps/web/src/lib/sales-order-gst.ts:78-110 | what a line comes to, amount by amount: what is rounded to the nearest paisa and when, CGST at most the whole tax and SGST the rest, IGST alone between states, the total exact and the rate a fraction |
| SalesGst.TaxableIsDiscountedValue | apps/web/src/lib/sales-order-gst.ts:84-85 | the taxable amount is within a paisa of the discounted value, or of zero |
| SalesGst.SplitIsFair | apps/web/src/lib/sales-order-gst.ts:91-104 | CGST plus SGST is the once-rounded tax, neither is negative, each is within a paisa of its share, equal rates differ by at most a paisa, and the total is exact |
| SalesGst.LineIsExact | apps/web/src/lib/sales-order-gst.ts:78-110 | for all rates every amount is whole paise, the parts add up without rounding, and the tax depends on the whole rate alone |
| SalesGst.OrderHasNoDrift | apps/web/src/lib/sales-order-gst.ts:112-120 | for any list of computed lines each total is the plain sum and the grand total is subtotal plus tax |
| SalesGst.OrderGrowsByLine | apps/web/src/lib/sales-order-gst.ts:112-120 | no lines come to nothing, and one more line adds each of its own amounts to the totals, with nothing rounded away |
| SalesGst.AcceptedExactly | apps/web/src/lib/sales-order-gst.ts:37-76 | which percents are accepted and why others are not: within a state halves of 0 to 14 that together round to 0, 5, 12, 18 or 28, between states a rate up to 28 within 0.001 of one of these |
| SalesGst.ValidRateRoundsToSlab | apps/web/src/lib/sales-order-gst.ts:37-76 | a line the validators accept has a rate that rounds to a slab |
| SalesGst.ConvertedPercents | apps/web/src/lib/sales-order-gst.ts:130-159 | converting a valid line gives a valid line of the rounded rate, in equal halves within a state |
| SalesGst.ConversionIsSplit | apps/web/src/lib/sales-order-gst.ts:130-159 | any line at all is converted at its IGST or else its two halves together, rounded and never below zero, into that rate or two rounded halves of it |
| SalesGst.ConversionKeepsMoney | apps/web/src/lib/sales-order-gst.ts:144-159 | the money of every quantity, price and discount is kept if and only if the rate has at most two decimals |
| SalesGst.ConversionRoundTrip | apps/web/src/lib/sales-order-gst.ts:144-159 | converting there and back restores the percents if and only if the rate has two decimals and, within a state, equal halves |
| TenantTransactions.PrismaService.AllOperations | apps/api/src/prisma/prisma.service.ts:67-82 | a model query on any client runs where that client stands in a marked context, and otherwise in a transaction of its own with the settings first |
| TenantTransactions.PrismaService.BatchTransaction | apps/api/src/prisma/prisma.service.ts:93-110 | one transaction for the batch, its queries passing the wrapper in the marked context, and each result at its own position |
| TenantTransactions.PrismaService.InteractiveTransaction | apps/api/src/prisma/prisma.service.ts:101-106 | the callback runs in the marked context, in a transaction whose settings were set first, and its own queries pass the wrapper too |
| TenantTransactions.CallerSettingsReachQueries | apps/api/src/prisma/prisma.service.ts:64-110 | an operation's queries run in order, all under the context's own company, none as empty text, and its own access flag, or full access without a context, if and only if its callbacks use only their own client |
| TenantTransactions.ProgramIsServed | apps/api/src/prisma/prisma.service.ts:64-110 | the same for every program of operations |
| TenantTransactions.RequestsAreKeptApart | apps/api/src/prisma/prisma.service.ts:64-110 | whatever two requests run, a query of one sees what a query of the other sees if and only if they have the same company, or both none, and the same access flag |
| TenantTransactions.MarkKeepsCaller | apps/api/src/prisma/prisma.service.ts:75-101 | the marked context names the same caller |
| TenantTransactions.WrapAllOpens | apps/api/src/prisma/prisma.service.ts:67-89 | the mark is what keeps a batch to one transaction: without it every one of its queries opens another |
| TenantTransactions.OwnClientOpens | apps/api/src/prisma/prisma.service.ts:67-89 | and so does every query a callback makes through its own client |
| TenantTransactions.OneTransactionPerOperation | apps/api/src/prisma/prisma.service.ts:67-109 | however many queries it makes, an operation opens one transaction under the caller's own company and access flag and one more for each that its callbacks start on the service: exactly one if and only if they start none |
| PoRemarks.RemarksRoundTrip | apps/web/src/lib/po-document.ts:47-88 | the stored text is the trimmed human text on its own line and the document between the two markers, and both come back if and only if the trimmed text does not contain the marker, whatever the document contains |
| PoRemarks.PlainRemarksRoundTrip | apps/web/src/lib/po-document.ts:52-85 | without a document the remarks are the trimmed text, and come back without one if and only if the text has no marker or what stands behind its first one does not parse |
| PoRemarks.LookupFindsMatch | apps/web/src/lib/po-line-calculations.ts:43-63 | for any stored entries the percent is that of the first entry about the line at its position, if there is none of the first about it anywhere, and zero without one |
| PoRemarks.FormKeepsNamedLines | apps/web/src/lib/po-form-document.ts:36-58 | the form keeps one entry for each line that has a product or a description, and no other, in line order, with its product or else its trimmed description and its percent, none for a missing or negative one |
| PoRemarks.EveryLineFindsItsTax | apps/web/src/lib/po-form-document.ts:36-46 | every line with a product or a description that is more than white space gets its own percent back, even with one product on two lines |
| PoRemarks.SavedFormKeepsLineTax | apps/web/src/lib/po-form-document.ts:60-62 | the same through encoding and parsing the stored remarks |
| PoRemarks.SumPoLineTotals | apps/web/src/lib/po-line-calculations.ts:27-38 | the accumulated totals are the sums of the lines, and the grand total is subtotal plus tax |
| PoRemarks.TotalsGrowByLine | apps/web/src/lib/po-line-calculations.ts:13-38 | one more line adds its quantity times its rate to the subtotal and that percent of it to the tax, a missing number being zero and a negative percent none |
| StockReconciliation.ReadAllRows | apps/api/scripts/verify-inventory.ts:67-82 | the cursor loop ends having read every row once, in order, in the fewest queries of 5000 of which the last comes back short |
| StockReconciliation.KeyInjective | apps/api/scripts/verify-inventory.ts:93-97 | ids without a colon cannot be confused by their joined key |
| StockReconciliation.ColonsConfuseKeys | apps/api/scripts/verify-inventory.ts:93-97 | ids with a colon can |
| StockReconciliation.BuildLedgerMap | apps/api/scripts/verify-inventory.ts:92-97 | the map holds each group's net quantity under its key |
| StockReconciliation.VerifyStockIntegrity | apps/api/scripts/verify-inventory.ts:67-149 | the report has exactly one accurate entry for each pair whose stock, or zero, differs from the ledger, and no other |
| StockReconciliation.NetGrowsByMovement | apps/api/scripts/verify-inventory.ts:84-97 | what the ledger says of a pair is nothing without movements, and each movement of the pair adds what came in less what went out |
| StockReconciliation.StockOfRow | apps/api/scripts/verify-inventory.ts:126-131 | the recorded stock of a pair is its row's |
| StockReconciliation.PassesMakeAReport | apps/api/scripts/verify-inventory.ts:108-138 | the two passes together name every disagreeing pair once and no agreeing one |
| StockReconciliation.EmptyReportMeansAgreement | apps/api/scripts/verify-inventory.ts:45-50 | the gate passes if and only if recorded stock and ledger agree everywhere |
| ProductCache.QueryCache.OnMutate | apps/web/src/hooks/use-products.ts:321-365 | every cached list gets the temporary row, and the snapshots are the old lists |
| ProductCache.QueryCache.OnError | apps/web/src/hooks/use-products.ts:366-370 | every key gets its snapshot back, an undefined one being left alone |
| ProductCache.QueryCache.OnSuccess | apps/web/src/hooks/use-products.ts:371-393 | every cached list gets the new row in place of the temporary ones unless it has its id |
| ProductCache.OptimisticCreateIsInsert | apps/web/src/hooks/use-products.ts:346-393 | mutate then success equals a direct insert, rows, total and pages, if and only if no surviving row is temporary or has the new id |
| ProductCache.FailedCreateRestores | apps/web/src/hooks/use-products.ts:345-370 | mutate then error restores the whole cache, whatever it held |
| ProductCache.FailedCreateAfterLoad | apps/web/src/hooks/use-products.ts:344-370 | a list loaded while the create was out stays after its failure if and only if there was none before |
| ProductCache.HandlersCountPages | apps/web/src/hooks/use-products.ts:346-393 | both handlers leave the first page and the fewest pages that hold the total, one at least; an answer keeps the total and changes nothing if its row is there |
| OverlappingCreates.AllAnsweredIsInserts | apps/web/src/hooks/use-products.ts:346-393 | any number of overlapping creates that are all answered end as direct inserts in the order of the answers |
| OverlappingCreates.RollbackIsRightExactly | apps/web/src/hooks/use-products.ts:366-370 | a rollback gives the list that the other creates alone would have left if and only if its own optimistic row was the last write |
| OverlappingCreates.RollbacksAreRightExactly | apps/web/src/hooks/use-products.ts:321-393 | for any number of creates, the list is at every point of the run as if the failed ones had never begun if and only if every failure is of that kind |
| OverlappingCreates.SettledCreatesAreInserts | apps/web/src/hooks/use-products.ts:321-393 | once all such creates have settled, the list is the direct inserts of the answers in their order |
| OverlappingCreates.TwoCreatesEndRightExactly | apps/web/src/hooks/use-products.ts:366-393 | for both orders and all outcomes two overlapping creates end right if and only if both are answered or the newer fails before the older settles, with the list they are left with otherwise |
| ProductCache.FetchAllProducts | apps/web/src/hooks/use-products.ts:277-287 | every product once and in order, up to the page limit |
| DemoLedger.DemoData.EnsureProduct | apps/api/prisma/demo-additive.ts:120-177 | creates master, assignment and opening row only when missing |
| DemoLedger.DemoData.EnsurePostedGoodsReceipt | apps/api/prisma/demo-additive.ts:179-243 | creates a posted receipt and its rows only when the number is new |
| DemoLedger.DemoData.EnsureDraftGoodsReceipt | apps/api/prisma/demo-additive.ts:245-284 | creates a draft receipt without rows only when the number is new |
| DemoLedger.DemoData.EnsureGoodsIssue | apps/api/prisma/demo-additive.ts:286-342 | creates an issue only when new, with rows only when posted |
| DemoLedger.DemoData.EnsureDamagedStock | apps/api/prisma/demo-additive.ts:344-390 | creates a damage record only when new, with a row only when posted |
| DemoLedger.DemoData.EnsureDocumentSequence | apps/api/prisma/demo-additive.ts:438-464 | raises a sequence, never lowers it |
| DemoLedger.LedgerMatchesDocuments | apps/api/prisma/demo-additive.ts:120-390 | every completed sequence of calls keeps under each posted document's number one row per line, in order, with the document's shop, the line's product and its quantity in for a receipt and out for an issue or damage, none under any other number, and one incoming opening row per stocked assignment |
| DemoLedger.StockIsAccountedFor | apps/api/prisma/demo-additive.ts:120-390 | at every point the ledger's in minus out of a product in a shop is its opening stock, plus what posted receipts brought, minus what posted issues and damage took |
| DemoLedger.FirstCallWins | apps/api/prisma/demo-additive.ts:188-300 | a stored document never changes, and a new number holds what the first call for it asked |
| DemoLedger.SequencesReachTheHighest | apps/api/prisma/demo-additive.ts:438-464 | a sequence ends at the highest number requested, or where it was |
| DemoLedger.SequencesNeverFall | apps/api/prisma/demo-additive.ts:456-463 | at no point of a run is a sequence above its final value |
| DemoLedger.RepeatingChangesNothing | apps/api/prisma/demo-additive.ts:188-464 | repeating a completed sequence of calls changes nothing, from any data |
| DemoLedger.InterruptedPostingStays | apps/api/prisma/demo-additive.ts:188-390 | a posted document of any kind cut off after any number of ledger rows agrees with the ledger if and only if all were written, and repeating the call changes nothing |
| DemoLedger.InterruptedHeaderStays | apps/api/prisma/demo-additive.ts:198-224 | a receipt or issue cut off between header and lines keeps no lines, however often the call is repeated |
| DemoLedger.InterruptedProduct | apps/api/prisma/demo-additive.ts:124-173 | a product without its assignment is completed by repeating the call, an assignment without its opening row is not |
| PercentEncoding.DecodeEncode | apps/web/src/lib/browser-cookies.ts:14-25 | decoding an encoded string gives it back, for every character through four UTF-8 octets |
| PercentEncoding.DecodesExactly | apps/web/src/lib/browser-cookies.ts:14-20 | a text decodes to another if and only if it spells it character by character, as it is or as the octets of its UTF-8 form; everything else is an error |
| PercentEncoding.UnescapedAre | apps/web/src/lib/browser-cookies.ts:14-25 | letters, digits and nine marks are left as they are, and nothing else is |
| BrowserCookies.Page.WriteBrowserCookie | apps/web/src/lib/browser-cookies.ts:23-35 | the parts array joined and assigned to the page's cookies |
| BrowserCookies.Page.DeleteBrowserCookie | apps/web/src/lib/browser-cookies.ts:37-42 | a write of nothing with age zero |
| BrowserCookies.WrittenText | apps/web/src/lib/browser-cookies.ts:23-35 | the text handed to the browser: name and value encoded, the path, a Max-Age in whole seconds and never below zero, the same-site rule and the secure mark |
| BrowserCookies.PrefixIsName | apps/web/src/lib/browser-cookies.ts:14-18 | the prefix with its equals sign matches exactly its own name |
| BrowserCookies.WriteStores | apps/web/src/lib/browser-cookies.ts:23-35 | what the browser makes of the written text: store, replace in place, remove, or ignore an empty name |
| BrowserCookies.ReadsLastWritten | apps/web/src/lib/browser-cookies.ts:12-42 | after any sequence of writes and deletes every name reads as the value last written, or null, and only the empty name never holds one |
| Scanner.BarcodeScanner.HandleScan | apps/mobile/src/components/BarcodeScanner.tsx:61-71 | the guards, the lock and the code's time stamp |
| Scanner.BarcodeScanner.ScanSettled | apps/mobile/src/components/BarcodeScanner.tsx:78-83 | the finally block starts the tail |
| Scanner.BarcodeScanner.OnHidden | apps/mobile/src/components/BarcodeScanner.tsx:52-59 | lock and cooldowns are forgotten, running scans and timers are not |
| Scanner.ScansAreSafe | apps/mobile/src/components/BarcodeScanner.tsx:52-84 | in an opening with nothing left over no two scans overlap, the next comes 600 ms or more after the last settled, and a code once in 2500 ms |
| Scanner.AcceptedExactlyWhenFree | apps/mobile/src/components/BarcodeScanner.tsx:62-66 | there a code is accepted if and only if nothing runs, no tail is pending and it was not seen in 2500 ms |
| Scanner.TailIsExact | apps/mobile/src/components/BarcodeScanner.tsx:78-83 | the timer of a settled scan unlocks at 600 ms and not before |
| Scanner.SafeExactlyWhenNothingLeft | apps/mobile/src/components/BarcodeScanner.tsx:52-82 | scans of a reopened scanner never overlap if and only if no scan and no timer was left over |
| CursorPaging.FetchAllCursorPages | apps/web/src/lib/fetch-cursor-pages.ts:19-47 | the concatenation of the pages up to the first without a next cursor or the limit, with at most that many calls even if cursors cycle |
| CursorPaging.CallsReadList | apps/web/src/lib/fetch-cursor-pages.ts:19-47 | from an endpoint that hands out a list in pages, in either shape, the loop reads the whole list, or its front up to the page limit, and never asks for a page that is not there |
| CursorPaging.AnyPageIsClamped | apps/web/src/hooks/use-goods-receipts.ts:100-103 | any requested page is clamped to the nearest existing one, which is empty only if nothing matched |
| CursorPaging.PagesConcatenate | apps/web/src/hooks/use-goods-receipts.ts:100-103 | pages 1 to the last, put together, are exactly the matched rows |

## Left out

- The rest of the repository: screens, API modules, the Prisma schema, its triggers and row-level security policies.
- Floating-point error: all amounts are exact, so `Number.EPSILON` and the `Math.min` it guards have nothing to do.
- JSON itself: remarks take `stringify` and `parse` as parameters that are inverse on the document at hand.
- The header fields of a purchase order document other than the per-line taxes are one map of given values.
- The lead-time pattern, supplier labels, units and descriptions of bids: a quote states a number of days or not.
- Validation messages are structured errors, not the texts built from them.
- `getAttemptKey`: the lockout is per storage key, and two accounts whose keys collide share it.
- The biometric login of the login screen, which sends stored credentials without the lockout.
- The bootstrap's `/auth/me` request and its clearing of cached data when another user signs in.
- Other tabs of the browser, which share the cookie jar but have a call in flight of their own.
- On mobile the refresh token's rotation on the server is not modelled, only the sharing and the clearing.
- Transactions that fail and roll back, the slow-query log, and calls outside the three kinds of operation.
- Reconciliation runs on one snapshot, and a shop filter is what the snapshot already contains.
- The refetch that follows a successful create and replaces what the handlers wrote; a failed create is followed by none.
- Cookies of other paths or other writers, expiry by time, and a browser that refuses Secure cookies on plain HTTP.
- Cookie text is trimmed of all white space where RFC 6265 names space and tab; encoded text holds neither.
- Receipt search: the filter decides which rows match, and everything about paging holds for any matched rows.
- Document values, rates and dates of demo data, users, roles, shops and purchase orders, which write no ledger rows.
