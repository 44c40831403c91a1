# AdScreen Pro backend: a Dafny model of the controllers

AdScreen Pro is a marketplace for screen advertising. Venues put display
screens on offer. Advertisers prepay a balance, create campaigns, book
screens and upload ads. Admins moderate ads, set venue commission rates and
pay venues out. This project models the four Express controllers that run
this marketplace (admin, venue, payment and advertiser). It models their
handlers as operations on a small relational database and proves what each
handler does to that database and what it answers.

The model in brief:

- **Tables.** Each table is a Dafny sequence of rows in insertion order, and
  each row carries its SERIAL key (`Tables`). Keys grow with insertion.
  `ORDER BY created_at DESC` is taken as the table read backwards, on the
  assumption that creation times grow with keys (see "## Left out").
- **The database.** `Database.Db` is one object whose fields are the tables
  and sequences. Its `Valid()` says keys are unique and increasing, each
  sequence is ahead of its keys, and booked (campaign, screen) pairs are
  unique.
- **Handlers that write.** These are methods on a `Db` (`ApproveAd`,
  `ProcessPayout`, `RequestPayout`, `HandlePaymentSuccess`,
  `AddCampaignLocations`, ...). Each names the fields it may change and
  states the whole new state. A handler that runs in a BEGIN/COMMIT
  (`processPayout`, `handlePaymentSuccess`, `addCampaignLocations`) restores
  its tables on each modelled failure of a statement inside it.
- **Handlers that only read.** These are functions over table values
  (`GetPendingAds`, `GetEarnings`, `GetPayoutHistory`, `GetBalance`,
  `GetAvailableLocations`).
- **Replies.** A reply is `Ok` (200), `Created` (201) or `Fail(status,
  message)`. The messages are the ones the handlers send.
- **Money** is integer cents. The source works in dollars; a commission rate
  is a `real`.
- **JavaScript truthiness** in the input checks is explicit: a text field is
  given when it is present and not empty, and a number when it is present
  and not zero.
- **The ledger.** The code writes no ledger, so `Ledger` defines the sums a
  ledger would reconcile against: completed payouts per venue and succeeded
  deposits per advertiser. The proofs say which handlers keep
  "balance + paid out" and "balance − deposited" constant, and which do not.
- **What the code does not guard, proved as behaviour:**
  - `processPayout` never re-checks the request's status or the venue's
    balance, so a completed request is paid, and debited, again.
  - The payment webhook is not deduplicated, so one event delivered twice
    credits twice.
  - `requestPayout` checks each amount against the balance alone, so pending
    requests together can exceed it.

Calls to code outside the repository are parameters of the model:

- the result of the payment provider's signature check,
- the customer and payment intent it creates,
- whether a database statement inside one of those three transactions throws,
- whether the file read or the AI call of `enhanceAd` fails,
- the `MINIMUM_PAYOUT` setting,
- the current timestamp.

## Model

| member | source | states |
|---|---|---|
| Tables.IndexOfKey | backend/controllers/adminController.js:101 | `WHERE id = $n` finds the row with that key, or reports that no row has it |
| Tables.IndexOfKeyUnique | backend/controllers/adminController.js:254 | with increasing keys, the row found is the only row with that key |
| Tables.FirstWhere | backend/controllers/venueController.js:136-145 | `rows[0]` of an unordered `WHERE`: the first row that matches, none before it, or none at all |
| Tables.Select | backend/controllers/adminController.js:70 | `WHERE` keeps exactly the matching rows: each kept row is in the table and matches, every matching row is kept, key order is kept |
| Tables.NewestFirst | backend/controllers/adminController.js:71 | `ORDER BY created_at DESC` lists position `k` as the `k`-th from the end |
| Tables.NewestFirstKeysDecrease | backend/controllers/venueController.js:194 | newest first lists keys in strictly decreasing order |
| Pagination.ReadPageQuery | backend/controllers/adminController.js:57-58 | page and limit default to 1 and 20, offset is `(page - 1) * limit`; with the defaults the offset is 0; a page of at least 1 and a non-negative limit give a non-negative offset |
| Pagination.TotalPages | backend/controllers/adminController.js:83 | `Math.ceil(count / limit)`: for a positive limit the least `n` with `n * limit >= count`; for limit 0 JSON null; for a negative limit at most 0 |
| Pagination.RowOnExactlyOnePage | backend/controllers/adminController.js:57-58 | with a positive limit, row `k` falls in the window of page `k / limit + 1`, which is within the page count, and of no other page |
| Pagination.PageOfRow | backend/controllers/adminController.js:57-58 | with a positive limit, the query for page `k / limit + 1` is accepted, its offset is the multiple of `limit` just below `k`, and `k` lies in its window at entry `k % limit` |
| Database.VenueOfUser | backend/controllers/venueController.js:136-145 | the caller's venue is the first venue row with their user id; none when no venue row has it |
| Database.AdvertiserOfUser | backend/controllers/paymentController.js:15-24 | the caller's advertiser is the first advertiser row with their user id; none when no row has it |
| Ledger.CompletingAddsOnce | backend/controllers/adminController.js:247-256 | marking a request completed adds its amount to its venue's paid-out total only when it was not completed already |
| Ledger.AppendingUnpaidKeepsPaidOut | backend/controllers/venueController.js:162-167 | a new request that is not completed moves no venue's paid-out total |
| Ledger.DepositedAppend | backend/controllers/paymentController.js:102-106 | appending a transaction adds exactly its deposit share to each advertiser's deposited total |
| AdminController.PendingAds | backend/controllers/adminController.js:70-76 | exactly the ads with status pending, in table order |
| AdminController.GetPendingAds | backend/controllers/adminController.js:55-89 | fails with 500 exactly when LIMIT or OFFSET is negative; otherwise a page holding exactly `min(limit, count - offset)` pending ads (none past the end), the `k`-th being pending ad `offset + k` newest first, with the pending count, the page and `TotalPages` of the count |
| AdminController.EveryPendingAdIsListed | backend/controllers/adminController.js:57-83 | with a positive limit, the `k`-th newest pending ad is entry `k % limit` of page `k / limit + 1`, that page is within the reported page count, and no other page's window covers it |
| AdminController.ApproveAd | backend/controllers/adminController.js:96-107 | the ad becomes approved by this admin at this time whatever its status was, only that row changes; unknown id gives 404 and no change |
| AdminController.RejectAd | backend/controllers/adminController.js:128-144 | a missing or empty reason gives 400 before any update; otherwise rejected with that reason by this admin; unknown id gives 404 and no change |
| AdminController.CommissionRateAccepted | backend/controllers/adminController.js:184-186 | a rate is accepted if and only if it is given and `0 < rate <= 100`; 0 is refused as falsy |
| AdminController.UpdateVenueCommission | backend/controllers/adminController.js:184-197 | a refused rate gives 400, an unknown venue 404, neither changes anything; otherwise only that venue's commission rate changes |
| AdminController.Debit | backend/controllers/adminController.js:265-269 | the venue with the key loses exactly the amount, with no floor; every other venue is unchanged |
| AdminController.ProcessPayout | backend/controllers/adminController.js:235-287 | unknown request, or a venue UPDATE that throws: 500 and neither table changes (rollback, so the completed status is undone too); otherwise the request becomes completed with the given transaction id, notes, admin and time, its venue is debited by its amount, nothing else changes, and each venue's earned total is kept except that re-processing a completed request lowers it by the amount |
| AdminController.ProcessingTwiceDebitsTwice | backend/controllers/adminController.js:247-269 | processing the same request twice succeeds both times and debits its venue twice the amount |
| VenueController.EarningsOf | backend/controllers/venueController.js:108 | exactly the earnings rows of that venue, in table order |
| VenueController.GetEarnings | backend/controllers/venueController.js:80-128 | no venue gives 404 before the query runs; otherwise 500 exactly when LIMIT or OFFSET is negative, else a page holding exactly `min(limit, count - offset)` of that venue's earnings (none past the end), newest first, with their count, the page and `TotalPages` of the count |
| VenueController.EveryEarningIsListed | backend/controllers/venueController.js:82-122 | with a positive limit, the venue's `k`-th newest earning is entry `k % limit` of page `k / limit + 1`, within the reported page count, and no other page's window covers it |
| VenueController.PayoutRefusal | backend/controllers/venueController.js:147-159 | no refusal if and only if `minimum <= amount <= balance`; below the minimum first, with the minimum printed in dollars as JavaScript prints the number; then "Insufficient balance" |
| VenueController.RequestPayout | backend/controllers/venueController.js:131-177 | no venue gives 404 before any amount check; the minimum is the `MINIMUM_PAYOUT` setting when set and non-zero, else 100 dollars; a refused amount gives 400; otherwise exactly one pending request for this venue and amount is appended under the next key, and no balance and no earned total moves |
| VenueController.PendingRequestsCanOverdraw | backend/controllers/venueController.js:155-167 | two requests that each fit the balance are both accepted and both pending, whatever their sum |
| VenueController.PayoutsOf | backend/controllers/venueController.js:192-193 | exactly the payout requests of that venue, in table order |
| VenueController.PayoutsNewestFirst | backend/controllers/venueController.js:194 | the venue's requests listed newest first have strictly decreasing keys |
| VenueController.GetPayoutHistory | backend/controllers/venueController.js:180-202 | no venue gives 404; otherwise every listed request is the caller venue's, every one of its requests is listed, newest first |
| VenueController.MergeProfileIdempotent | backend/controllers/venueController.js:218-229 | `COALESCE($n, column)` per field: sending the same edit twice equals sending it once |
| VenueController.SuccessiveEditsCompose | backend/controllers/venueController.js:218-229 | two successive edits equal one edit in which each field the later one gives wins and every other field keeps the earlier edit's value (an empty string counts as given) |
| VenueController.EmptyPatchKeepsVenue | backend/controllers/venueController.js:218-229 | an edit with every field absent changes nothing |
| VenueController.ProfilesUpdatedIdempotent | backend/controllers/venueController.js:218-229 | repeating the same profile update leaves the venues table as one update did |
| VenueController.ProfilesUpdatedKeepsOwners | backend/controllers/venueController.js:218-229 | an update changes no owner, so every user's venue lookup finds the same row afterwards |
| VenueController.UpdateProfile | backend/controllers/venueController.js:205-248 | every venue row of the caller gets the edit (given fields overwrite, absent ones keep the column; owner, rate, balance and active flag untouched) and every other row is unchanged; the first of the caller's rows is returned; no match gives 404 and no change |
| PaymentController.PaymentAmountAccepted | backend/controllers/paymentController.js:10-12 | an amount is accepted if and only if it is given and at least 10 dollars |
| PaymentController.CreatePaymentIntent | backend/controllers/paymentController.js:6-70 | a missing, zero or sub-ten-dollar amount gives 400 before any lookup or write; no advertiser 404; a stored customer id is reused and nothing is written; otherwise the new customer id is stored before the intent is asked for and stays when the intent call fails; the intent asks for the amount, that customer, advertiser and user; once it is asked for, the reply fails (500) exactly when the provider call throws, and otherwise carries the provider's intent id and client secret |
| PaymentController.StoredCustomerIsReused | backend/controllers/paymentController.js:27-49 | with a stored customer id, repeated intents use that same id and the advertisers table never changes |
| PaymentController.DepositRecord | backend/controllers/paymentController.js:102-106 | the recorded row adds the intent's amount to that advertiser's deposits and nothing to anyone else's |
| PaymentController.Credit | backend/controllers/paymentController.js:109-114 | the advertiser with the key gains the amount in both balance and total; every other advertiser is unchanged |
| PaymentController.HandlePaymentSuccess | backend/controllers/paymentController.js:73-131 | a failed signature gives 400 and no change; any other event type gives `{received: true}` and no change; a succeeded intent appends one deposit row and credits that advertiser, or on a storage failure rolls back, still acknowledging; each advertiser's balance and total less its deposits are kept |
| PaymentController.DuplicateDeliveryCreditsTwice | backend/controllers/paymentController.js:89-116 | one succeeded event delivered twice appends two identical deposit rows and credits twice the amount |
| PaymentController.GetBalance | backend/controllers/paymentController.js:160-177 | 404 exactly when the caller has no advertiser; otherwise the balance and total of one of the caller's rows |
| PaymentController.CreditSeenByGetBalance | backend/controllers/paymentController.js:162-172 | after a credit, the depositor's next balance read shows the amount added to both figures, and every other caller reads what they read before |
| Collation.TextLeTotal | backend/controllers/advertiserController.js:260 | any two texts are ordered one way or the other |
| Collation.TextLeAntisymmetric | backend/controllers/advertiserController.js:260 | texts ordered both ways are equal |
| Collation.TextLeTransitive | backend/controllers/advertiserController.js:260 | the text order is transitive |
| AdvertiserController.CreateCampaign | backend/controllers/advertiserController.js:70-104 | an empty or missing name, or a missing or zero budget, gives 400 before the lookup (a negative budget passes); no advertiser 404; neither writes; otherwise one campaign of the caller's advertiser is appended and returned with 201 |
| AdvertiserController.UploadAd | backend/controllers/advertiserController.js:107-158 | no file 400, then no campaign id 400, then no advertiser 404, none writing; otherwise one pending ad is appended and returned with 201, a video exactly when the MIME type starts with "video/", with the given duration or 10 when it is missing or empty |
| AdvertiserController.EnhanceAd | backend/controllers/advertiserController.js:161-227 | unknown ad 404, a non-image 400, an outside failure 500, none changing anything; otherwise only the ad's enhanced path is set, to its own file path |
| AdvertiserController.ScreensOf | backend/controllers/advertiserController.js:248-250 | one venue's available screens: each is in the table and available, every available one is there |
| AdvertiserController.Join | backend/controllers/advertiserController.js:248-258 | exactly the available (venue, screen) pairs: each from the tables and available, every available pair present |
| AdvertiserController.ListingLeTotal | backend/controllers/advertiserController.js:260 | any two listings are ordered by city then name one way or the other |
| AdvertiserController.ListingLeTransitive | backend/controllers/advertiserController.js:260 | ordering by city then name is transitive |
| AdvertiserController.SortedInOrder | backend/controllers/advertiserController.js:260 | in a sorted sequence every earlier row orders before every later one |
| AdvertiserController.SortOffers | backend/controllers/advertiserController.js:260 | sorted by city then name, and a permutation of its input |
| AdvertiserController.SortKeepsOffers | backend/controllers/advertiserController.js:260 | sorting keeps the length and exactly the same rows |
| AdvertiserController.ListingsInOrder | backend/controllers/advertiserController.js:260 | sorted offers list in city-then-name order |
| AdvertiserController.ListingsMatchJoin | backend/controllers/advertiserController.js:234-258 | listing the join's pairs in any order lists exactly the available pairs, at the flat weekly cost and the requested zip code |
| AdvertiserController.GetAvailableLocations | backend/controllers/advertiserController.js:230-269 | the rows are a permutation of the listings of the join, one per available pair (active venue, active screen, matching zip when given); every available pair is listed; each at 35.00 a week; ordered by city then business name |
| AdvertiserController.ListingsOfSort | backend/controllers/advertiserController.js:260 | sorting the joined pairs permutes their listings: no listing is lost or duplicated |
| AdvertiserController.InsertIfAbsent | backend/controllers/advertiserController.js:291-301 | an already booked pair inserts and returns nothing; otherwise the row is appended under the next key and returned |
| AdvertiserController.InsertEach | backend/controllers/advertiserController.js:288-302 | the table grows by exactly the rows returned, at most one per screen id, and the sequence advances by their number |
| AdvertiserController.InsertEachStep | backend/controllers/advertiserController.js:290-302 | one more screen id is one more insert-if-absent on the state so far |
| AdvertiserController.InsertEachAddsNewBookings | backend/controllers/advertiserController.js:281-301 | every returned row books a requested screen for this campaign at 35.00 a week under the next keys, and its pair was not booked before |
| AdvertiserController.InsertEachBooksAll | backend/controllers/advertiserController.js:290-297 | after the loop every requested pair is booked |
| AdvertiserController.InsertIfAbsentKeepsPairsUnique | backend/controllers/advertiserController.js:295 | insert-if-absent never books a pair twice |
| AdvertiserController.InsertEachKeepsPairsUnique | backend/controllers/advertiserController.js:290-297 | the loop never books a pair twice |
| AdvertiserController.AddedAreTheNewPairs | backend/controllers/advertiserController.js:288-301 | the returned rows have distinct screen ids, so a repeated id yields one row, and every requested screen not booked before has its row |
| AdvertiserController.RequestedPairsBookedOnce | backend/controllers/advertiserController.js:290-297 | after the loop every requested pair is booked by exactly one row |
| AdvertiserController.InsertEachKeepsKeys | backend/controllers/advertiserController.js:292-296 | keys stay unique and increasing and the sequence stays ahead of them |
| AdvertiserController.AddCampaignLocations | backend/controllers/advertiserController.js:272-320 | a missing or empty list gives 400 before the transaction; a throwing insert rolls back every insert of the call and gives 500; otherwise the table and reply are those of one insert-if-absent per screen id in order |

## Left out

- The payment provider's SDK (`customers.create`, `paymentIntents.create`, `webhooks.constructEvent`) is foreign code. Its outcomes are parameters: a signature error message, a customer id, an intent.
- `enhanceAd`'s file read and AI call are file and network I/O. Their failure is one parameter, and the provider's response body is not part of the reply.
- `getDashboard` (all controllers), `getVenues`, `getPayoutRequests`, `getFinancialReport`, `getCampaignAnalytics` and `getPaymentHistory` are not part of this model. They are reports and aggregates over time functions, outside the modelled core.
- authController.js is not part of this model. It is password hashing and token signing by foreign libraries. The role checks are middleware that is not shown, so a handler simply trusts its caller id.
- server.js and the route files are wiring. Two consequences are not modelled: `/api/advertiser` is served by a stub router rather than this controller, and the global JSON parser runs before the webhook's raw body parser.
- Money in dollars as JavaScript floats (`Math.round(amount * 100)`, `amount / 100`, `parseFloat`) is out. Every amount is integer cents.
- Non-numeric or malformed request values (a page of "abc", a string `screenIds`) are out: inputs are typed.
- The connection pool and concurrent requests are out. A transaction runs alone, all or nothing.
- database/schema.sql is not part of this model (database/setup.js only runs it). Its column defaults are assumed: a new payout request is `pending`, a new ad is `pending`. Every join in the listings is assumed to find its rows, so no earning or pending ad is dropped by a missing campaign, advertiser or user.
- PostgreSQL spends sequence values on rolled-back inserts and on `ON CONFLICT DO NOTHING`. The model leaves the sequence where it was in both cases, so keys stay increasing but may differ from the database's.
- In `handlePaymentSuccess` and `addCampaignLocations`, a statement that fails, for example on a foreign key (a deposit for an unknown advertiser, a booking of an unknown screen), is the storage-failure parameter. It is not derived from the tables.
- `createCampaign`, `uploadAd`, `requestPayout`, `approveAd`, `rejectAd`, `updateVenueCommission` and `updateProfile` answer 500 when their query throws, for example an ad whose campaign id breaks a foreign key. These catch paths are not modelled: those handlers have no failure parameter, and their contracts cover only the outcomes that do not throw.
- `ORDER BY created_at DESC` is modelled as reverse insertion order. `created_at` is a schema default that is not shown; rows created in one transaction share a timestamp and may come back in any order among themselves. `NewestFirst`, `GetPendingAds`, `GetEarnings` and `GetPayoutHistory` assume that creation times strictly grow with keys.
- Database.VenueOfUser: `SELECT ... WHERE user_id = $1` has no ORDER BY. When a user has several rows, the model takes the first in table order, and the database may return another. Database.AdvertiserOfUser makes the same choice, and so do the handlers that use them.
- VenueController.RequestPayout: the amount is a present number. A missing amount makes both JavaScript comparisons false and reaches the insert, whose outcome depends on the unseen schema.
- VenueController.UpdateProfile: Postgres returns the updated rows in an unspecified order. The model returns the first matching row in table order.
- AdvertiserController.GetAvailableLocations: listings that tie on city and business name may come back in any order. The model proves sortedness and exactly-the-available-pairs for one such order, and the `radius` parameter is ignored as in the code.
- AdvertiserController.GetAvailableLocations: text is compared byte by byte (the "C" collation). The database's collation is not part of the source; under a locale collation such as en_US the order of cities and names can differ (for example "apple" before "Banana").
- AdvertiserController.AddCampaignLocations: a failure of BEGIN or COMMIT themselves is not modelled. Only an insert that throws is.
- PaymentController.HandlePaymentSuccess: the intent's `metadata.advertiserId` is taken as a number. Stripe sends it as text for the database to cast.
- PaymentController.CreatePaymentIntent: the customer's email and name come from the users table, which is not modelled. A missing user row is not a modelled failure.
- Success replies carry only the data the handler returns (the row, the page, the listing). The fixed `message` texts beside it are left out.
- AdminController.ApproveAd: `rejection_reason` is not cleared, as in the code, so an ad that was rejected and is then approved keeps its old reason.
