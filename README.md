# SplitTrip backend core in Dafny

A model of the core of the SplitTrip backend, a Spring service for sharing trip expenses. Trips have members, members record expenses split between them, and the service computes who owes whom. The model covers:

- **Balances and settlement** (`BalanceService`). `calculateBalances` folds a trip's expenses into a ledger. The payer is credited the amount in rupees (amounts are stored in paise) and each split entry is debited an equal share. Each balance is rounded to two decimals into new `UserBalance` objects. `calculateBalanceSummary` splits those objects into creditors (above 0.01) and debtors (below −0.01). It then pays greedily: each debtor pays each creditor `round2(min(owed, remaining))` and lowers the creditor object in place. The creditor objects are the objects returned as `rawBalances`. `UserBalance` is a Dafny class, and the settlement loops are methods proved against the value-level functions `SettleDebtor` and `SettleAll`. Both hash-map iteration orders are parameters, and every property holds for every order.
- **The trip store** (`TripService`, `JoinRequestService`, `ExpenseService`, `UserService`, `OtpService`). The MongoDB collections are one `Database` object whose `map`/`seq` fields the service methods reassign. Its invariant `Valid()` covers:
  - stored ids;
  - duplicate-free member lists that contain the creator;
  - unique trip codes;
  - at most one PENDING request per trip and user;
  - ten-minute OTP expiry.

  Every method states its whole new state through `State()`.
- **The documents**: `User` (the `getName` fallback chain and the provider predicates) and `Otp` (expiry and validity).
- **Encoders**:
  - `TripCodeGenerator`;
  - the OTP code format;
  - `escapeJson`, proved equal to a per-character escape and read back by a JSON reader that follows section 7 of RFC 8259;
  - the Brevo request body, proved to read back field by field;
  - the OTP e-mail page.
- **The decisions of `AuthController`**: token precedence, Google user resolution, and the guard order of the e-mail OTP and password steps. Each response comes with the list of service calls made.

Randomness, clocks, UUIDs, delivery outcomes and the results of service code that is not part of this model are parameters. Money is an exact `real`. Only the explicit `Math.round` steps are modelled.

## Model

| member | source | states |
|---|---|---|
| Money.RoundHalfUp | backend/src/main/java/com/splittrip/backend/service/BalanceService.java:82 | Math.round: the result is within half a unit of x, halves going up |
| Money.Round2 | backend/src/main/java/com/splittrip/backend/service/BalanceService.java:82 | rounding to two decimals gives whole paise within half a paisa of the input |
| Money.Round2OfCents | backend/src/main/java/com/splittrip/backend/service/BalanceService.java:120 | rounding an amount already in whole paise changes nothing |
| Money.CentsClosed | backend/src/main/java/com/splittrip/backend/service/BalanceService.java:119-137 | whole paise stay whole under the subtraction, min and abs of the settlement loop |
| Money.CentsGap | backend/src/main/java/com/splittrip/backend/service/BalanceService.java:116-117 | two different amounts in whole paise differ by at least one paisa |
| Decimal.ZeroPadRoundTrip | backend/src/main/java/com/splittrip/backend/service/OtpService.java:139-143 | zero padding to six digits loses nothing: the digits read back as the number |
| Decimal.NatToStringRoundTrip | backend/src/main/java/com/splittrip/backend/service/BalanceService.java:129-130 | the integer part printed by %.2f reads back as the number |
| Decimal.ValueOfBound | backend/src/main/java/com/splittrip/backend/service/OtpService.java:139-143 | a six-digit string denotes a number below 10^6 |
| BalanceLedger.Seed | backend/src/main/java/com/splittrip/backend/service/BalanceService.java:48-51 | every member gets an entry, and every entry starts at 0 |
| BalanceLedger.DebitEachValue | backend/src/main/java/com/splittrip/backend/service/BalanceService.java:67-70 | each split entry loses one share per occurrence in the split |
| BalanceLedger.DebitedCount | backend/src/main/java/com/splittrip/backend/service/BalanceService.java:67-70 | what a user loses to one expense is the share times their number of occurrences |
| BalanceLedger.ApplyExpense | backend/src/main/java/com/splittrip/backend/service/BalanceService.java:54-70 | after one expense the keys are the old keys plus the payer and every split entry |
| BalanceLedger.ApplyExpenseValue | backend/src/main/java/com/splittrip/backend/service/BalanceService.java:54-70 | one expense adds the amount in rupees to the payer and takes one share per occurrence from each split entry |
| BalanceLedger.ApplyAll | backend/src/main/java/com/splittrip/backend/service/BalanceService.java:53-71 | applying expenses never removes a key |
| BalanceLedger.ApplyAllValue | backend/src/main/java/com/splittrip/backend/service/BalanceService.java:54-71 | each balance after all expenses is its start value plus the user's net over the expenses |
| BalanceLedger.ApplyAllKeys | backend/src/main/java/com/splittrip/backend/service/BalanceService.java:59-60 | the ledger keys are the members plus every payer and split entry, member or not |
| BalanceLedger.TripLedger | backend/src/main/java/com/splittrip/backend/service/BalanceService.java:47-71 | the ledger's keys are the members plus every payer and split entry of the expenses |
| BalanceLedger.TripLedgerSpec | backend/src/main/java/com/splittrip/backend/service/BalanceService.java:48-71 | keys are members plus participants; a member's balance is their net; a member with no expenses is at 0 |
| BalanceLedger.ValidLedgerKeys | backend/src/main/java/com/splittrip/backend/service/BalanceService.java:48-71 | for stored expenses (payer and split are members) the ledger has exactly one entry per member |
| BalanceLedger.TripLedgerConserves | backend/src/main/java/com/splittrip/backend/service/BalanceService.java:36-37 | when every split is non-empty the unrounded balances sum to zero, in any iteration order |
| BalanceLedger.SumOfApplyAll | backend/src/main/java/com/splittrip/backend/service/BalanceService.java:54-71 | applying expenses with non-empty splits leaves the sum over the keys unchanged |
| BalanceLedger.ShareTimesCount | backend/src/main/java/com/splittrip/backend/service/BalanceService.java:63-64 | the shares of a non-empty split add back up to the amount |
| BalanceLedger.NetOfNonParticipant | backend/src/main/java/com/splittrip/backend/service/BalanceService.java:48-51 | a user who neither pays nor shares has net 0 |
| BalanceLedger.TimesIsProduct | backend/src/main/java/com/splittrip/backend/service/BalanceService.java:63-70 | n repeated debits of a share equal n times the share |
| BalanceService.UserBalance.constructor | backend/src/main/java/com/splittrip/backend/dto/UserBalance.java:12-16 | a new balance object holds the given id, name and balance |
| BalanceService.Snapshot | backend/src/main/java/com/splittrip/backend/service/BalanceService.java:74-85 | the current values of the balance objects, one entry per object in order |
| BalanceService.ReportEntries | backend/src/main/java/com/splittrip/backend/service/BalanceService.java:74-85 | on success one entry per key of the iteration order |
| BalanceService.ReportEntriesSpec | backend/src/main/java/com/splittrip/backend/service/BalanceService.java:74-85 | the stream succeeds exactly when every key has a stored user with a derivable name; each entry is the key, the name and the balance rounded to two decimals |
| BalanceService.ReportEntriesError | backend/src/main/java/com/splittrip/backend/service/BalanceService.java:76-77 | the first key without a stored user fails with "User not found: <id>"; a name that throws fails with its message |
| BalanceService.SeedBalances | backend/src/main/java/com/splittrip/backend/service/BalanceService.java:48-51 | the member loop yields the seed ledger: every member at 0 |
| BalanceService.ApplyExpenseTo | backend/src/main/java/com/splittrip/backend/service/BalanceService.java:54-70 | the expense loop body credits the payer and debits every split entry, as ApplyExpense |
| BalanceService.Report | backend/src/main/java/com/splittrip/backend/service/BalanceService.java:74-85 | the stream creates distinct new objects showing exactly the report entries, or fails with the report's error |
| BalanceService.TripBalances | backend/src/main/java/com/splittrip/backend/service/BalanceService.java:39-86 | a missing trip is "Trip not found"; on success one entry per key of the iteration order, in that order |
| BalanceService.CalculateBalances | backend/src/main/java/com/splittrip/backend/service/BalanceService.java:39-86 | fails exactly when the trip is missing or a key has no user; otherwise new distinct objects showing the rounded ledger of the trip |
| BalanceService.Lookup | backend/src/main/java/com/splittrip/backend/service/BalanceService.java:103-109 | the entry of a user in a report, or a zero entry |
| BalanceService.LookupUnique | backend/src/main/java/com/splittrip/backend/service/BalanceService.java:103-109 | with distinct ids, looking up an entry's user finds that entry |
| BalanceService.LookupMember | backend/src/main/java/com/splittrip/backend/service/BalanceService.java:103-109 | with distinct ids, every reported entry is what Lookup finds for its user |
| BalanceService.Partition | backend/src/main/java/com/splittrip/backend/service/BalanceService.java:103-109 | creditors are exactly the entries above 0.01 and debtors exactly those below -0.01, keyed by user, each map holding the reported objects themselves |
| BalanceService.TracksSkip | backend/src/main/java/com/splittrip/backend/service/BalanceService.java:117 | skipping a creditor owed less than a paisa keeps the loop on the specified course |
| BalanceService.TracksPay | backend/src/main/java/com/splittrip/backend/service/BalanceService.java:119-137 | paying a creditor round2(min(owed, balance)) and lowering its balance keeps the loop on course |
| BalanceService.TracksDone | backend/src/main/java/com/splittrip/backend/service/BalanceService.java:116 | when the debt is below a paisa or the creditors run out, the issued instructions and balances are the specified ones |
| BalanceService.Lower | backend/src/main/java/com/splittrip/backend/service/BalanceService.java:137 | setBalance lowers exactly the j-th creditor's balance and no other object |
| BalanceService.PayCreditor | backend/src/main/java/com/splittrip/backend/service/BalanceService.java:119-137 | one payment step issues the specified instruction and lowers the creditor, staying on course |
| BalanceService.SettleDebtorWith | backend/src/main/java/com/splittrip/backend/service/BalanceService.java:113-138 | the inner loop issues exactly SettleDebtor's instructions and leaves the creditor objects at SettleDebtor's balances |
| BalanceService.SettleAllWith | backend/src/main/java/com/splittrip/backend/service/BalanceService.java:112-139 | the outer loop issues exactly SettleAll's instructions, leaves the creditors at its balances and the debtors untouched |
| BalanceService.Gather | backend/src/main/java/com/splittrip/backend/service/BalanceService.java:112 | values() in iteration order: the objects stored under the keys, in order |
| BalanceService.GatheredSnapshot | backend/src/main/java/com/splittrip/backend/service/BalanceService.java:103-109 | the gathered objects show the reported entries of the gathered users |
| BalanceService.GatheredDistinct | backend/src/main/java/com/splittrip/backend/service/BalanceService.java:103-109 | objects gathered under distinct keys are distinct |
| BalanceService.ReportIds | backend/src/main/java/com/splittrip/backend/service/BalanceService.java:74-85 | the report lists the users of the iteration order, once each |
| BalanceService.AfterSettlementShows | backend/src/main/java/com/splittrip/backend/service/BalanceService.java:103-105 | after settlement the reported objects show each creditor's leftover balance and every other entry unchanged |
| BalanceService.ShowsAt | backend/src/main/java/com/splittrip/backend/service/BalanceService.java:103-105 | one reported object after settlement: a creditor's leftover, otherwise its reported value |
| BalanceService.PartitionReported | backend/src/main/java/com/splittrip/backend/service/BalanceService.java:103-112 | the creditor and debtor objects, in iteration order, are the report's objects, show its entries, and no debtor is a creditor |
| BalanceService.SettleReported | backend/src/main/java/com/splittrip/backend/service/BalanceService.java:103-139 | partition then settlement issues SummaryPlan's instructions and leaves rawBalances showing AfterSettlement |
| BalanceService.CalculateBalanceSummary | backend/src/main/java/com/splittrip/backend/service/BalanceService.java:92-147 | fails exactly when calculateBalances fails; otherwise the trip id and name, the greedy plan's instructions and rawBalances showing the creditors' leftovers |
| BalanceService.TripBalancesWellFormed | backend/src/main/java/com/splittrip/backend/service/BalanceService.java:74-85 | a trip's reported balances list each key once and are in whole paise |
| BalanceService.SidesWellFormed | backend/src/main/java/com/splittrip/backend/service/BalanceService.java:103-109 | creditors are owed a positive whole-paise amount, debtors owe, each user is listed once and nobody is on both sides |
| BalanceService.SummaryPayments | backend/src/main/java/com/splittrip/backend/service/BalanceService.java:112-133 | every instruction goes from a debtor to a creditor, never to oneself, and is at least one paisa |
| BalanceService.SummaryCreditors | backend/src/main/java/com/splittrip/backend/service/BalanceService.java:135-137 | each creditor's leftover plus what it is paid equals its reported balance, and no leftover is negative |
| BalanceService.SummaryDebtors | backend/src/main/java/com/splittrip/backend/service/BalanceService.java:113-136 | no debtor pays more than they owe; when creditors are owed at least the total debt every debtor pays exactly their debt |
| Settlement.FormatAmount | backend/src/main/java/com/splittrip/backend/service/BalanceService.java:129-130 | the %.2f text ends in a point and two digits, and starts with "-" exactly for a negative amount |
| Settlement.MessageOf | backend/src/main/java/com/splittrip/backend/service/BalanceService.java:129-130 | the message starts with the payer's name and ends with the payee's name |
| Settlement.FormatAmountRoundTrip | backend/src/main/java/com/splittrip/backend/service/BalanceService.java:129-130 | the %.2f text of a whole-paise amount has two decimals and reads back as the amount |
| Settlement.SettleDebtor | backend/src/main/java/com/splittrip/backend/service/BalanceService.java:115-138 | the inner loop on values keeps one balance per creditor |
| Settlement.SettleDebtorPays | backend/src/main/java/com/splittrip/backend/service/BalanceService.java:119-137 | a payment step issues round2(min(owed, balance)) and lowers that creditor by it |
| Settlement.SettleDebtorKeepsUsers | backend/src/main/java/com/splittrip/backend/service/BalanceService.java:115-138 | the inner loop keeps every creditor's id and name and does not touch creditors already passed |
| Settlement.SettleAll | backend/src/main/java/com/splittrip/backend/service/BalanceService.java:112-139 | the outer loop on values keeps every creditor's id and name |
| Settlement.SettleDebtorShape | backend/src/main/java/com/splittrip/backend/service/BalanceService.java:123-131 | each instruction of one debtor runs from that debtor to a creditor at or after the current position |
| Settlement.SettleDebtorPaid | backend/src/main/java/com/splittrip/backend/service/BalanceService.java:136 | what one debtor pays is exactly what their debt went down by |
| Settlement.SettleDebtorCredited | backend/src/main/java/com/splittrip/backend/service/BalanceService.java:137 | the creditors' total went down by what the debtor paid |
| Settlement.SettleDebtorTotals | backend/src/main/java/com/splittrip/backend/service/BalanceService.java:135-137 | paid total equals the drop in debt and the drop in the creditors' total |
| Settlement.SettleDebtorConservation | backend/src/main/java/com/splittrip/backend/service/BalanceService.java:135-137 | each creditor's leftover plus what it was paid is its start balance |
| Settlement.PaymentCents | backend/src/main/java/com/splittrip/backend/service/BalanceService.java:119-120 | with whole paise the rounded payment is the exact min, at least a paisa, leaving both sides non-negative whole paise |
| Settlement.BelowPaisa | backend/src/main/java/com/splittrip/backend/service/BalanceService.java:116 | a non-negative whole-paise amount below a paisa is zero |
| Settlement.SettleDebtorCents | backend/src/main/java/com/splittrip/backend/service/BalanceService.java:115-137 | with whole paise every payment is at least a paisa and nobody is driven below zero |
| Settlement.SettleDebtorExhausts | backend/src/main/java/com/splittrip/backend/service/BalanceService.java:115-138 | with whole paise a debtor ends with the debt settled or every later creditor paid in full |
| Settlement.SumsAppend | backend/src/main/java/com/splittrip/backend/service/BalanceService.java:133 | totals of appended instruction lists add up |
| Settlement.PaidFromUniform | backend/src/main/java/com/splittrip/backend/service/BalanceService.java:124 | instructions all from one user make that user pay their total |
| Settlement.NoDupTail | backend/src/main/java/com/splittrip/backend/service/BalanceService.java:112 | the remaining debtors are distinct and differ from the first |
| Settlement.SettleAllShape | backend/src/main/java/com/splittrip/backend/service/BalanceService.java:112-133 | every instruction runs from a debtor to a creditor; at most |debtors| x |creditors| instructions |
| Settlement.NoSelfPayment | backend/src/main/java/com/splittrip/backend/service/BalanceService.java:103-109 | when no user is both debtor and creditor nobody pays themselves |
| Settlement.SettleAllConservation | backend/src/main/java/com/splittrip/backend/service/BalanceService.java:135-137 | each creditor ends with its balance less everything paid to it |
| Settlement.SettleAllCents | backend/src/main/java/com/splittrip/backend/service/BalanceService.java:112-138 | with whole paise all payments are at least a paisa, creditors stay non-negative and no debtor pays more than owed |
| Settlement.SettleAllComplete | backend/src/main/java/com/splittrip/backend/service/BalanceService.java:112-138 | with whole paise, when creditors are owed at least the total debt, every debtor pays exactly their debt |
| Settlement.SumBalancesUpdate | backend/src/main/java/com/splittrip/backend/service/BalanceService.java:137 | changing one creditor changes the total by the difference |
| Settlement.SumOwedNonNeg | backend/src/main/java/com/splittrip/backend/service/BalanceService.java:113 | the total debt is not negative |
| Store.GrowMembersKeepsValid | backend/src/main/java/com/splittrip/backend/service/TripService.java:86-90 | adding existing users to a member list without duplicates keeps the trip, expense and request invariants |
| Store.ExpensesOf | backend/src/main/java/com/splittrip/backend/service/ExpenseService.java:66 | findByTripId returns at most the stored expenses |
| Store.ExpensesOfMembers | backend/src/main/java/com/splittrip/backend/service/ExpenseService.java:66 | findByTripId returns exactly the stored expenses of the trip |
| TripCodes.SymbolIndex | backend/src/main/java/com/splittrip/backend/utils/TripCodeGenerator.java:7 | each alphabet symbol has a position in the alphabet |
| TripCodes.AlphabetDecodes | backend/src/main/java/com/splittrip/backend/utils/TripCodeGenerator.java:7 | the alphabet has 32 symbols and each decodes to its own position |
| TripCodes.AlphabetNoDup | backend/src/main/java/com/splittrip/backend/utils/TripCodeGenerator.java:7 | the alphabet has no repeated symbol |
| TripCodes.CodeOf | backend/src/main/java/com/splittrip/backend/utils/TripCodeGenerator.java:17-22 | the code spelled by a draw sequence: one alphabet symbol per draw |
| TripCodes.Generate | backend/src/main/java/com/splittrip/backend/utils/TripCodeGenerator.java:17-23 | the builder loop returns the six symbols drawn, all from the alphabet |
| TripCodes.GenerateWithPrefix | backend/src/main/java/com/splittrip/backend/utils/TripCodeGenerator.java:29-31 | the prefix followed by a fresh code, of length |prefix| + 6 |
| TripCodes.CodeAvoidsConfusables | backend/src/main/java/com/splittrip/backend/utils/TripCodeGenerator.java:13-14 | no code contains 0, O, 1 or I |
| TripCodes.CodeOfInjective | backend/src/main/java/com/splittrip/backend/utils/TripCodeGenerator.java:7-20 | distinct draw sequences give distinct codes |
| TripService.DrawnCodes | backend/src/main/java/com/splittrip/backend/service/TripService.java:57-58 | the code each attempt draws, one per attempt |
| TripService.FirstFree | backend/src/main/java/com/splittrip/backend/service/TripService.java:54-65 | a failure is always "Failed to generate unique trip code"; a success is an unused code among the ten checked draws |
| TripService.FirstFreeSpec | backend/src/main/java/com/splittrip/backend/service/TripService.java:54-65 | fails with "Failed to generate unique trip code" exactly when the ten checked codes are all taken; otherwise the first unused code drawn |
| TripService.GenerateUniqueTripCode | backend/src/main/java/com/splittrip/backend/service/TripService.java:54-65 | the do-while loop returns what FirstFree specifies, the 11th draw never being checked |
| TripService.AddTripKeepsValid | backend/src/main/java/com/splittrip/backend/service/TripService.java:37-51 | storing a new trip whose only member is its creator, with an unused code, keeps the invariants |
| TripService.CreateTrip | backend/src/main/java/com/splittrip/backend/service/TripService.java:30-52 | missing creator fails with "Creator user not found"; otherwise it succeeds exactly when some of the ten checked draws is unused, the code is the first unused draw (`FirstFree`), and the one new trip records the creator with [creator] as members; a failure changes nothing |
| TripService.GetTripById | backend/src/main/java/com/splittrip/backend/service/TripService.java:94-97 | the stored trip exactly when the id exists, else "Trip not found" |
| TripService.GetTripByCode | backend/src/main/java/com/splittrip/backend/service/TripService.java:67-70 | a trip exactly when some trip has the code; the one stored under its id |
| TripService.GetTripsByUser | backend/src/main/java/com/splittrip/backend/service/TripService.java:72-74 | exactly the trips whose members contain the user |
| TripService.AddMemberToTrip | backend/src/main/java/com/splittrip/backend/service/TripService.java:76-92 | checks trip, user, membership in that order; otherwise appends at the end and the member list stays duplicate-free |
| TripService.MemberNames | backend/src/main/java/com/splittrip/backend/service/TripService.java:108-113 | on success one name per member; the only failure is getName's split index error |
| TripService.MemberNamesSpec | backend/src/main/java/com/splittrip/backend/service/TripService.java:108-113 | member names have the members' length and order, "Unknown" for a missing user |
| TripService.MemberNamesOk | backend/src/main/java/com/splittrip/backend/service/TripService.java:108-113 | the names stream fails only when a stored member's getName throws |
| TripService.PaiseTotal | backend/src/main/java/com/splittrip/backend/service/TripService.java:116-119 | the corrected total: fails only on a null amount, with the null-amount error, and succeeds when every amount is present |
| TripService.PaiseTotalAsWritten | backend/src/main/java/com/splittrip/backend/service/TripService.java:116-119 | the total as written: the same failure behaviour, each amount multiplied by 100 before rounding |
| TripService.GetTripSummary | backend/src/main/java/com/splittrip/backend/service/TripService.java:103-129 | a missing trip is "Trip not found"; a summary carries the trip's code, and its member count equals the member list's length and the number of names |
| TripService.TripSummarySpec | backend/src/main/java/com/splittrip/backend/service/TripService.java:103-129 | missing trip fails; memberCount is the member list length; names follow the members; the total is the paise sum of the trip's expenses |
| TripService.PaiseTotalScaling | backend/src/main/java/com/splittrip/backend/service/TripService.java:116-119 | for present whole-paise amounts the corrected total equals the exact sum of the stored amounts (`SumAmounts`), and the total as written is 100 times that |
| TripService.TotalAsWrittenCounterexample | backend/src/main/java/com/splittrip/backend/service/TripService.java:116-119 | an expense of 90000 paise is totalled as 9000000 as written, 90000 corrected |
| JoinRequestService.SubmitJoinRequest | backend/src/main/java/com/splittrip/backend/service/JoinRequestService.java:30-57 | fails for a missing trip, a missing user, an existing member, an existing pending request, in that order; otherwise stores one PENDING request with the user's name |
| JoinRequestService.NewRequestKeepsValid | backend/src/main/java/com/splittrip/backend/service/JoinRequestService.java:45-56 | a new pending request for a pair without one keeps at most one pending request per pair |
| JoinRequestService.PendingRequestsForTrip | backend/src/main/java/com/splittrip/backend/service/JoinRequestService.java:62-64 | exactly the stored PENDING requests of the trip |
| JoinRequestService.UserJoinRequests | backend/src/main/java/com/splittrip/backend/service/JoinRequestService.java:129-131 | exactly the stored PENDING requests of the user |
| JoinRequestService.UserPendingOnePerTrip | backend/src/main/java/com/splittrip/backend/service/JoinRequestService.java:129-131 | while at most one request per (trip, user) pair is pending, the user's pending list holds at most one request per trip |
| JoinRequestService.AddIfAbsent | backend/src/main/java/com/splittrip/backend/service/JoinRequestService.java:86-89 | the requester is in the members exactly once, nobody else is added, and an existing member leaves the list unchanged |
| JoinRequestService.Respondable | backend/src/main/java/com/splittrip/backend/service/JoinRequestService.java:69-83 | passes exactly for an existing PENDING request of an existing trip answered by its creator; each failure gives its message in the source's order |
| JoinRequestService.AnsweredLeavesNoPending | backend/src/main/java/com/splittrip/backend/service/JoinRequestService.java:91-94 | answering the pending request of a pair leaves that pair with none |
| JoinRequestService.ApproveKeepsValid | backend/src/main/java/com/splittrip/backend/service/JoinRequestService.java:86-94 | approving keeps every database invariant |
| JoinRequestService.ApproveJoinRequest | backend/src/main/java/com/splittrip/backend/service/JoinRequestService.java:69-97 | refusals change nothing; approval adds the requester once, sets APPROVED with the approver and time |
| JoinRequestService.RejectJoinRequest | backend/src/main/java/com/splittrip/backend/service/JoinRequestService.java:102-124 | refusals change nothing; rejection leaves the trip unchanged and sets REJECTED with the rejector and time |
| JoinRequestService.AnsweredOnce | backend/src/main/java/com/splittrip/backend/service/JoinRequestService.java:73-75 | an answered request can never be answered again |
| ExpenseService.FirstSplitError | backend/src/main/java/com/splittrip/backend/service/ExpenseService.java:40-47 | no error exactly when every split entry is an existing user and a trip member |
| ExpenseService.FirstSplitErrorSpec | backend/src/main/java/com/splittrip/backend/service/ExpenseService.java:40-47 | the split scan passes exactly when every entry is an existing member; an error comes from the first bad entry, existence before membership |
| ExpenseService.ExpenseError | backend/src/main/java/com/splittrip/backend/service/ExpenseService.java:24-47 | no error exactly when the trip exists, the payer exists and is a member, and every split entry exists and is a member; a missing trip is reported first |
| ExpenseService.CreateExpense | backend/src/main/java/com/splittrip/backend/service/ExpenseService.java:24-59 | fails exactly with the first failing check, storing nothing; otherwise appends an expense copying every field |
| ExpenseService.GetExpensesForTrip | backend/src/main/java/com/splittrip/backend/service/ExpenseService.java:61-67 | fails exactly for a missing trip; otherwise exactly the trip's stored expenses |
| ExpenseService.ExpensesOfAppend | backend/src/main/java/com/splittrip/backend/service/ExpenseService.java:58 | a new expense is appended to its own trip's list and to no other |
| UserModel.NewUser | backend/src/main/java/com/splittrip/backend/model/User.java:41-42 | a freshly built user is a guest |
| UserModel.IsGuest | backend/src/main/java/com/splittrip/backend/model/User.java:69-71 | true only for the provider "GUEST": never together with "EMAIL" or "GOOGLE", never for a null provider |
| UserModel.IsEmailAuth | backend/src/main/java/com/splittrip/backend/model/User.java:74-76 | true only for the provider "EMAIL": never together with "GUEST" or "GOOGLE", never for a null provider |
| UserModel.IsGoogleAuth | backend/src/main/java/com/splittrip/backend/model/User.java:79-81 | true only for the provider "GOOGLE": never together with "GUEST" or "EMAIL", never for a null provider |
| UserModel.ProvidersExclusive | backend/src/main/java/com/splittrip/backend/model/User.java:69-81 | at most one provider predicate holds; none for a null or unknown provider |
| UserModel.Fields | backend/src/main/java/com/splittrip/backend/model/User.java:92 | splitting yields at least one field |
| UserModel.DropTrailingEmpty | backend/src/main/java/com/splittrip/backend/model/User.java:92 | dropping trailing empty strings keeps a prefix |
| UserModel.TakeUntil | backend/src/main/java/com/splittrip/backend/model/User.java:92 | the text before the first separator |
| UserModel.FieldsHead | backend/src/main/java/com/splittrip/backend/model/User.java:92 | the first field is the text before the first separator |
| UserModel.FieldsAllEmpty | backend/src/main/java/com/splittrip/backend/model/User.java:92 | all fields are empty exactly when the string is separators only |
| UserModel.DropTrailingEmptyEmpty | backend/src/main/java/com/splittrip/backend/model/User.java:92 | everything is dropped exactly when every field is empty |
| UserModel.EmailHeadSpec | backend/src/main/java/com/splittrip/backend/model/User.java:91-93 | the email fallback is the text before the first @, and throws exactly for a non-empty email made only of @ |
| UserModel.GetName | backend/src/main/java/com/splittrip/backend/model/User.java:84-95 | the name returned is the display name, the legacy name, the e-mail text before the first "@", or "Unknown User"; the only exception is the split's index error, and only with an e-mail present |
| UserModel.GetNameSpec | backend/src/main/java/com/splittrip/backend/model/User.java:84-95 | displayName, else legacy name, else the email head, else "Unknown User"; it throws only for an all-@ email |
| UserService.CreateUser | backend/src/main/java/com/splittrip/backend/service/UserService.java:20-37 | an existing email fails with "Email already exists" and stores nothing; otherwise stores a user with the name and email |
| UserService.GetUserById | backend/src/main/java/com/splittrip/backend/service/UserService.java:39-42 | the stored user exactly when the id exists, else "User not found with id: <id>" |
| UserService.CreateGuestUser | backend/src/main/java/com/splittrip/backend/service/UserService.java:48-60 | returns the user holding the guest id, or stores a new guest with it |
| UserService.GetUserByGuestId | backend/src/main/java/com/splittrip/backend/service/UserService.java:65-68 | a user holding the guest id exactly when one exists, else "Guest user not found" |
| UserService.GetOrCreateByIdAndName | backend/src/main/java/com/splittrip/backend/service/UserService.java:74-84 | an existing user is returned unchanged; otherwise a user with exactly this id and name is stored |
| UserService.GetOrCreateTwice | backend/src/main/java/com/splittrip/backend/service/UserService.java:74-84 | two calls return the same user and store at most that one |
| UserService.CreateGuestTwice | backend/src/main/java/com/splittrip/backend/service/UserService.java:48-60 | two calls with one guest id return the same user and store at most one new user |
| OtpModel.BuildOtp | backend/src/main/java/com/splittrip/backend/model/Otp.java:39-43 | the builder defaults: created now, expiring exactly 600 seconds after creation, other fields as given |
| OtpModel.IsExpired | backend/src/main/java/com/splittrip/backend/model/Otp.java:46-48 | for a record with the default expiry: expired exactly when more than ten minutes have passed since creation |
| OtpModel.IsValid | backend/src/main/java/com/splittrip/backend/model/Otp.java:50-52 | a verified record is never valid; a valid record with the default expiry is at most ten minutes old |
| OtpModel.ExpiryWindow | backend/src/main/java/com/splittrip/backend/model/Otp.java:39-52 | a new record expires ten minutes after creation; it is valid up to and including that instant and expired after |
| OtpService.GenerateOtpCode | backend/src/main/java/com/splittrip/backend/service/OtpService.java:139-143 | exactly six decimal digits whose value is the draw |
| OtpService.OtpCodeInjective | backend/src/main/java/com/splittrip/backend/service/OtpService.java:139-143 | distinct draws give distinct codes |
| OtpService.LatestOf | backend/src/main/java/com/splittrip/backend/service/OtpService.java:70 | a non-empty set of records has a latest one |
| OtpService.LatestExists | backend/src/main/java/com/splittrip/backend/service/OtpService.java:70 | the newest-first query finds a record exactly when one exists |
| OtpService.GenerateAndSendOtp | backend/src/main/java/com/splittrip/backend/service/OtpService.java:36-62 | stores a new unverified record valid for ten minutes before delivery; a failed delivery keeps it and fails |
| OtpService.VerifyOtp | backend/src/main/java/com/splittrip/backend/service/OtpService.java:69-97 | only the latest unverified record is considered; it is marked verified exactly when unexpired and holding the exact code, otherwise nothing changes |
| OtpService.VerifiedOnce | backend/src/main/java/com/splittrip/backend/service/OtpService.java:91-96 | a record just marked verified is never the one looked at next |
| OtpService.LatestSameExpiry | backend/src/main/java/com/splittrip/backend/service/OtpService.java:103-121 | two equally latest records expire together, so the choice among them does not matter |
| OtpService.IsOtpVerified | backend/src/main/java/com/splittrip/backend/service/OtpService.java:103-121 | true exactly when the latest verified record exists and is unexpired; nothing changes |
| OtpService.VerifyActivates | backend/src/main/java/com/splittrip/backend/service/OtpService.java:91-121 | after a successful verify, isOtpVerified holds at that time |
| OtpService.ClearOtpVerification | backend/src/main/java/com/splittrip/backend/service/OtpService.java:127-134 | deletes only the latest verified record of the email; no-op without one |
| OtpService.WithoutExpired | backend/src/main/java/com/splittrip/backend/service/OtpService.java:148-151 | exactly the records whose expiry is not before now, unchanged |
| OtpService.CleanupExpiredOtps | backend/src/main/java/com/splittrip/backend/service/OtpService.java:148-151 | removes exactly the records expiring before now |
| OtpService.CleanupKeepsValid | backend/src/main/java/com/splittrip/backend/service/OtpService.java:148-151 | no kept record has expired and every valid record is kept |
| BrevoEmail.EscapeJson | backend/src/main/java/com/splittrip/backend/service/BrevoEmailService.java:121-131 | null gives the empty string; the escaped text is never shorter than the value (its exact form is EscapeJsonIsPerChar) |
| BrevoEmail.EscapeChar | backend/src/main/java/com/splittrip/backend/service/BrevoEmailService.java:125-130 | the five special characters become a backslash pair; every other character is itself |
| BrevoEmail.ReplaceAppend | backend/src/main/java/com/splittrip/backend/service/BrevoEmailService.java:125-130 | replace distributes over concatenation |
| BrevoEmail.ReplaceAbsent | backend/src/main/java/com/splittrip/backend/service/BrevoEmailService.java:125-130 | replace of an absent character changes nothing |
| BrevoEmail.ChainOfChar | backend/src/main/java/com/splittrip/backend/service/BrevoEmailService.java:125-130 | the five chained replaces on one character give its per-character escape |
| BrevoEmail.EscapeJsonIsPerChar | backend/src/main/java/com/splittrip/backend/service/BrevoEmailService.java:121-131 | the chained replaces equal the per-character map, backslash being replaced first |
| BrevoEmail.EscapedAppend | backend/src/main/java/com/splittrip/backend/service/BrevoEmailService.java:125-130 | the per-character escape distributes over concatenation |
| BrevoEmail.EscapedLength | backend/src/main/java/com/splittrip/backend/service/BrevoEmailService.java:125-130 | output length is input length plus the number of special characters |
| BrevoEmail.EscapedShape | backend/src/main/java/com/splittrip/backend/service/BrevoEmailService.java:125-130 | no raw LF, CR or TAB in the output, and every quote follows a backslash |
| BrevoEmail.ReadEscaped | backend/src/main/java/com/splittrip/backend/service/BrevoEmailService.java:125-130 | a JSON reader recovers exactly the escaped text and stops at its closing quote |
| BrevoEmail.ReadVerbatim | backend/src/main/java/com/splittrip/backend/service/BrevoEmailService.java:104-115 | text with no quote or backslash reads back verbatim |
| BrevoEmail.EscapeJsonInjective | backend/src/main/java/com/splittrip/backend/service/BrevoEmailService.java:121-131 | distinct values give distinct escapes |
| BrevoEmail.EscapedIsJsonBody | backend/src/main/java/com/splittrip/backend/service/BrevoEmailService.java:121-131 | the output is a valid JSON string body exactly when the input has no control character other than LF, CR, TAB |
| BrevoEmail.BrevoJsonPayload | backend/src/main/java/com/splittrip/backend/service/BrevoEmailService.java:102-116 | the body starts with the sender object holding the escaped sender name |
| BrevoEmail.Expect | backend/src/main/java/com/splittrip/backend/service/BrevoEmailService.java:102-116 | the rest after a literal exactly when the text starts with it |
| BrevoEmail.FieldEscaped | backend/src/main/java/com/splittrip/backend/service/BrevoEmailService.java:104-115 | an escaped field reads back as its value |
| BrevoEmail.FieldVerbatim | backend/src/main/java/com/splittrip/backend/service/BrevoEmailService.java:104-115 | a verbatim field without quote or backslash reads back |
| BrevoEmail.PayloadRoundTrip | backend/src/main/java/com/splittrip/backend/service/BrevoEmailService.java:102-116 | a reader recovers every field of the body, a null sender name as "", provided the two unescaped addresses hold no quote or backslash |
| BrevoEmail.RecipientNotEscaped | backend/src/main/java/com/splittrip/backend/service/BrevoEmailService.java:104-115 | a recipient holding a quote is inserted verbatim and the body no longer reads back |
| BrevoEmail.FieldStopsAtQuote | backend/src/main/java/com/splittrip/backend/service/BrevoEmailService.java:104-115 | the reader stops an address at its quote |
| BrevoEmail.FillCode | backend/src/main/java/com/splittrip/backend/service/BrevoEmailService.java:136-195 | the page is the head, then the code at the head's end, then the tail |
| BrevoEmail.OtpEmailHtml | backend/src/main/java/com/splittrip/backend/service/BrevoEmailService.java:136-195 | the code occurs in the OTP page right after the fixed head (the tail follows by `FillCode`) |
| BrevoEmail.FillCodeInjective | backend/src/main/java/com/splittrip/backend/service/BrevoEmailService.java:136-195 | for fixed head and tail, equal pages mean equal codes |
| AuthController.NextStep | backend/src/main/java/com/splittrip/backend/controller/AuthController.java:234-243 | "set_display_name" exactly when a display name is needed, else "continue_action" |
| AuthController.SignupGuest | backend/src/main/java/com/splittrip/backend/controller/AuthController.java:63-84 | given the outcome of the one-argument `createGuestUser(displayName)` it calls, success is 201 with the created user's id and display name, GUEST, isNew true, needsDisplayName false, continue_action; failure is 400 "Failed to create guest user: " plus the message; the call is recorded, and no user is stored by this model |
| AuthController.BearerHasText | backend/src/main/java/com/splittrip/backend/controller/AuthController.java:134 | a header starting with "Bearer " has text |
| AuthController.SelectToken | backend/src/main/java/com/splittrip/backend/controller/AuthController.java:134-148 | a "Bearer " header first, minus its prefix; else a non-blank body idToken; else no token |
| AuthController.Caught | backend/src/main/java/com/splittrip/backend/controller/AuthController.java:248-258 | an IllegalArgumentException is 401 with its message, anything else 500 |
| AuthController.ResolveGoogleUser | backend/src/main/java/com/splittrip/backend/controller/AuthController.java:194-231 | with currentUserId the user is looked up by id first; without it by e-mail first |
| AuthController.AuthenticateGoogle | backend/src/main/java/com/splittrip/backend/controller/AuthController.java:125-259 | no verifier or service is called exactly when no token is selected |
| AuthController.AfterVerification | backend/src/main/java/com/splittrip/backend/controller/AuthController.java:150-188 | the verifier's calls come first |
| AuthController.AuthenticateGoogleWithCode | backend/src/main/java/com/splittrip/backend/controller/AuthController.java:282-368 | the code exchange, with the code and the redirect URI, is the first call; an exception from it is handled by the two catch blocks (`Caught`: 401 with the message, or 500); a null exchange is 401 "Invalid authorization code" with no further call; otherwise the response and calls are those of the shared user resolution |
| AuthController.CodeFlowEmailNotRequired | backend/src/main/java/com/splittrip/backend/controller/AuthController.java:297-342 | unlike the token flow, an exchange without an e-mail is not refused: a user lookup follows, by id for an upgrade and otherwise by the null e-mail |
| AuthController.MissingTokenRefused | backend/src/main/java/com/splittrip/backend/controller/AuthController.java:139-148 | no Bearer header and no non-blank idToken: 401 "Missing authentication token" and no call |
| AuthController.BearerTakesPrecedence | backend/src/main/java/com/splittrip/backend/controller/AuthController.java:134-138 | a Bearer header wins; the Firebase verifier gets the header minus seven characters |
| AuthController.NoEmailRefused | backend/src/main/java/com/splittrip/backend/controller/AuthController.java:184-188 | a null e-mail is 401 with no lookup after the verifier |
| AuthController.NonGuestNotUpgraded | backend/src/main/java/com/splittrip/backend/controller/AuthController.java:194-206 | a non-guest current user gets 400 and no upgrade is attempted |
| AuthController.IsNewExactlyWhenLookupFails | backend/src/main/java/com/splittrip/backend/controller/AuthController.java:219-231 | a successful sign-in is new exactly when there is no currentUserId and the e-mail lookup threw IllegalArgumentException |
| AuthController.GoogleNextStep | backend/src/main/java/com/splittrip/backend/controller/AuthController.java:234-243 | needsDisplayName exactly when the name is null or empty; nextStep follows it |
| AuthController.SendOtpEndpoint | backend/src/main/java/com/splittrip/backend/controller/AuthController.java:382-393 | stores exactly one new record (the six-digit code of the draw, unverified, created now and expiring ten minutes later) and changes nothing else; 200 when delivered, else 400 with the failure message |
| AuthController.VerifyOtpEndpoint | backend/src/main/java/com/splittrip/backend/controller/AuthController.java:417-474 | a refused code is 400 with nothing else done; an existing user signs in (isNew false, needsDisplayName false, continue_action) and the verification is cleared; a new user goes to set_password and the verification is kept |
| AuthController.SetPasswordGuard | backend/src/main/java/com/splittrip/backend/controller/AuthController.java:495-510 | verified OTP, non-empty password, non-blank trimmed display name, checked in that order |
| AuthController.SetPasswordEndpoint | backend/src/main/java/com/splittrip/backend/controller/AuthController.java:491-539 | each refusal leaves the records unchanged; the verification is cleared only after the user exists and holds the hash; success answers isNew true, needsDisplayName false, continue_action |
| AuthController.NewUserCanSetPassword | backend/src/main/java/com/splittrip/backend/controller/AuthController.java:417-539 | right after a verify that sends a new user to set a password, the password step's OTP guard passes |

## Left out

- IEEE-754 rounding error: amounts and balances are exact reals, and only `Math.round` is modelled. The thresholds and the "whole paise" lemmas are stated for exact values.
- HTTP, logging, the Brevo `sendEmail` call, and the Google and Firebase token verifiers: these are I/O. A verifier's or code exchange's outcome is a parameter.
- The `UserService` operations that `AuthController` calls but whose code is not part of this model (`upgradeGuestToGoogle`, `getUserByEmail`, `getOrCreateGoogleUser`, `getOrCreateEmailUser`, `setPasswordHash`): their results are parameters, and their calls appear in the call list.
- AuthController.SignupGuest: calls a one-argument `createGuestUser(displayName)` (AuthController.java:66), but `UserService` declares only `createGuestUser(guestId, name)` (UserService.java:48); no method of that signature exists in the repository, so its outcome is a parameter and the model neither links it to `UserService.CreateGuestUser` nor stores a user.
- The Base64 encoding of the password in `setPassword`: a library call, modelled as the parameter `encodedPassword`.
- `UUID.randomUUID`, `SecureRandom` and `LocalDateTime.now`: parameters (`newId`, draws, `now` in whole seconds). An operation reads the clock once.
- `createUser`'s `DuplicateKeyException` branch: it only arises from concurrent inserts, and calls here are sequential.
- Concurrency in general: operations are atomic.
- `.isGuest(true)` on the `User` builder in `UserService`: `User` declares no such field, so the model builds users with the builder default `authProvider = "GUEST"`.
- `BrevoEmail.OtpEmailHtml`: its contract places the code right after the fixed head; the rest of the page's shape is proved for any head and tail (`FillCode`), because the template literal makes longer statements too costly for the solver. The markup of the template itself is reproduced but no property of the HTML is stated.
- `BrevoEmail.OtpEmailPayload` has no contract of its own. It is `BrevoJsonPayload` applied to the OTP subject and page, so `PayloadRoundTrip` covers it.
- `Settlement.MessageOf`: the instruction's `message` is a function of the other fields, not a stored field. Its contract fixes the names at both ends, and `FormatAmountRoundTrip` proves that the amount text reads back for whole-paise amounts.
- `Settlement.FormatAmount`: prints ASCII digits with a '.' separator, as `String.format` does under an English-style default locale. The JVM's default locale, which can change the decimal separator or the digits, is not modelled.
- `TripService.PaiseTotal` and `TripService.PaiseTotalAsWritten`: a null amount ends the sum with the stand-in message "amount is null". The text of the exception the JDK throws when unboxing a null `Double` is not modelled.
- Java's `HashMap` iteration order: the orders of the balance map and the creditor and debtor maps are parameters, and each property is proved for every order.
- `TripService.GetTripSummary`: the model uses the corrected paise total (see Findings). `PaiseTotalAsWritten` keeps the total as written.
- Trip status transitions and the thin controllers, the configuration classes and the frontend: outside the modelled core.

## Findings

| source | as written | input that shows it | evidently intended | confidence | as-written member | corrected member |
|---|---|---|---|---|---|---|
| backend/src/main/java/com/splittrip/backend/service/TripService.java:116-119 | `totalExpensesAmount` sums `Math.round(amount * 100)`, although `amount` is already stored in paise (the balance code divides it by 100) | one expense of Rs 900, stored as `90000.0`: the summary reports `9000000` | the sum of the stored paise amounts, `90000` | not executed | TripService.TotalAsWrittenCounterexample | TripService.PaiseTotalScaling |
