# Manobotar Bondhon: the bookkeeping core in Dafny

The web app of a volunteer organisation keeps its members, their dues payments
(donations), the organisation's fund ledger, notices and activities as JSON
lists in the browser's storage. Its pages read a list, rebuild it and write it
back:

- the admin back-office approves members, verifies payments and edits the ledger, notices and activities;
- the member dashboard works out what a member has paid and still owes;
- the fund page merges the ledger with the approved payments;
- the payment form files a new pending payment;
- the registration and sign-in forms check and add members.

This project models that bookkeeping:

- `types.dfy` (module `Types`) holds the records of `src/types.ts` as datatypes.
- `sequences.dfy` (`Sequences`) holds the list operations the pages build everything from: sum, filter, delete by id, replace by id, the replace-or-prepend upsert, and find by key.
- `fund.dfy` (`Fund`) holds the unified fund totals and the fund page's derived income entries and newest-first list.
- `admin.dfy` (`Admin`) holds the overview figures, the member search and the records each admin handler writes.
- `dues.dfy` (`Dues`) holds the member dashboard's paid, due and organisation figures, the pay-due prefill and the approved-only gate.
- `payment.dfy`, `registration.dfy` and `login.dfy` hold the payment form, the registration checks and the member sign-in decision.
- `store.dfy` (`Store.RecordStore`) is a class with one `seq` field per storage key. Each admin or member action is a method that reassigns that field, specified against the pure functions above.

Dates enter as a (year, month) pair with months 0 to 11, as JavaScript's
`getMonth` numbers them. The moment `Date.now()` becomes a `stamp` string and
the formatted current date becomes a `today` string. The newest-first sort
compares an abstract `dateKey: string -> int`. Lower-casing is an abstract
`lowerChar: char -> char`. The confirmation dialog becomes a `confirmed`
flag. The user open in the admin's edit modal becomes an `Option<User>`
parameter.

Three behaviours of the code worth noting:

- The month count is not clamped to at least 1. A join date after `now` gives 0 or fewer months.
- The join date used for dues is `created_at`, or the current month when it is missing. `joining_date` is not used.
- The payment form keeps a monthly amount of 0 as the initial amount, because the string "0" is truthy. The dashboard replaces 0 with 500 (`Payment.ZeroMonthlyDiffers`).

## Model

| member | source | states |
|---|---|---|
| Sequences.Sum | src/pages/AdminDashboard.tsx:50-52 | the `reduce((acc, x) => acc + x, 0)` sum: 0 for an empty list, and never negative when no element weighs less than 0 |
| Sequences.Filter | src/pages/AdminDashboard.tsx:50-51 | the result keeps exactly the elements that pass, is no longer than the input, and is the input itself when every element passes |
| Sequences.FilterConcat | src/pages/AdminDashboard.tsx:50-51 | filtering a concatenation is concatenating the filtered parts, so the filter keeps the input's order |
| Sequences.FilterSingleton | src/pages/AdminDashboard.tsx:50-51 | one record is kept exactly when it passes; with FilterConcat this fixes the result's order and multiplicity completely |
| Sequences.FirstKeyIsUnique | src/pages/MemberDashboard.tsx:35 | `find` has at most one answer: two first indices of a key are the same index |
| Sequences.RemoveById | src/pages/AdminDashboard.tsx:100-104 | every survivor has a different id, every record with a different id survives, and a missing id leaves the list unchanged |
| Sequences.RemoveByIdIsFilter | src/pages/AdminDashboard.tsx:126-130 | deleting by id equals filtering out that id, so by FilterConcat and FilterSingleton the other records keep their order and multiplicity |
| Sequences.RemoveUniqueAt | src/pages/AdminDashboard.tsx:144-148 | with unique ids, deleting the id at index i removes exactly that one record |
| Sequences.ReplaceById | src/pages/AdminDashboard.tsx:94 | same length; records with the id become the new record, all others are untouched |
| Sequences.ReplaceUniqueAt | src/pages/AdminDashboard.tsx:85 | with unique ids, replacing by the id at index i is a point update at i |
| Sequences.Upsert | src/pages/AdminDashboard.tsx:139 | a draft with an id replaces by id in place; a new draft is prepended with the old list behind it |
| Sequences.FindByKey | src/pages/Register.tsx:39 | None exactly when no record has the key; otherwise the first record with the key |
| Fund.ApprovedDonationSum | src/pages/AdminDashboard.tsx:50-52 | the filter-then-reduce sum equals each donation counting its amount when approved and nothing otherwise |
| Fund.LedgerIncome | src/pages/AdminDashboard.tsx:54-56 | the filter-then-reduce sum equals each entry counting its amount when income and nothing otherwise |
| Fund.LedgerExpense | src/pages/AdminDashboard.tsx:58-60 | the filter-then-reduce sum equals each entry counting its amount when expense and nothing otherwise |
| Fund.OrgTotals | src/pages/OrganizationFund.tsx:49-60 | income is ledger income plus approved donations, expense is ledger expense, balance is income minus expense with no floor; also as per-record sums |
| Fund.LedgerSplit | src/types.ts:57 | every ledger entry is counted in exactly one of the income and expense sums |
| Fund.TotalsPermutationInvariant | src/pages/AdminDashboard.tsx:50-63 | the totals do not depend on the order of either list |
| Fund.OnlyApprovedCount | src/pages/AdminDashboard.tsx:50-52 | dropping every pending and rejected donation leaves the totals unchanged |
| Fund.AddDonationEffect | src/pages/PaymentMethods.tsx:62-64 | a donation added to the list changes only income and balance, by its amount if approved and not at all otherwise |
| Fund.SeededLedger | src/pages/OrganizationFund.tsx:20-23 | the seed ledger is one income entry of 45000 with no reference, so the totals are 45000 plus the approved donations, with no expense |
| Fund.DonorName | src/pages/OrganizationFund.tsx:38 | the donor's name when present and non-empty, otherwise the non-empty fallback "সদস্য" |
| Fund.FromDonation | src/pages/OrganizationFund.tsx:33-41 | the derived entry is income with id "don-" + donation id, the same amount, the donation's date and the donation id as reference |
| Fund.IncomeEntries | src/pages/OrganizationFund.tsx:33 | one derived entry per donation, position by position |
| Fund.IncomeEntriesMembership | src/pages/OrganizationFund.tsx:33 | every donation's entry is in the mapped list, and every entry in it comes from one of the donations |
| Fund.DerivedIncome | src/pages/OrganizationFund.tsx:30-41 | entry k is FromDonation of the k-th approved donation; every approved donation's entry is present and every entry is an approved donation's |
| Fund.DerivedIncomeSums | src/pages/OrganizationFund.tsx:31-41 | the derived entries carry exactly the approved-donation income and no expense |
| Fund.SortNewestFirst | src/pages/OrganizationFund.tsx:44-46 | the result is a permutation of the input, of the same length |
| Fund.SortNewestFirstSorted | src/pages/OrganizationFund.tsx:44-46 | the sorted list is newest first |
| Fund.CombinedLedger | src/pages/OrganizationFund.tsx:44-46 | a newest-first permutation of ledger plus derived entries, of length ledger size plus approved count |
| Fund.CombinedAgreesWithTotals | src/pages/OrganizationFund.tsx:49-54 | summing the combined list gives the same income and expense as the totals, so no approved donation is counted twice |
| Fund.LedgerView | src/pages/OrganizationFund.tsx:70 | the detailed list is shown exactly when a user is signed in |
| Admin.DashboardStats | src/pages/AdminDashboard.tsx:50-67 | the fund card equals the balance of the unified totals; the pending-users, members and pending-donations cards count the users pending, the users approved and the donations pending; pending, approved and rejected users (and donations) add up to the whole list |
| Admin.MatchesQuery | src/pages/AdminDashboard.tsx:213 | the search test: the lower-cased name contains the lower-cased query, or the phone contains the query as typed |
| Admin.FilteredUsers | src/pages/AdminDashboard.tsx:213 | keeps exactly the users whose lower-cased name contains the lower-cased query or whose phone contains the query; an empty query keeps everyone |
| Admin.EmptyQueryMatchesAll | src/pages/AdminDashboard.tsx:213 | every user matches the empty query |
| Admin.Reviewed | src/pages/AdminDashboard.tsx:85 | status is the decision, approved is decision == Approved, every other field is the reviewed user's |
| Admin.ApprovalMovesApplicant | src/pages/AdminDashboard.tsx:64-66 | approving a pending user with a unique id lowers the pending count by one, raises the member count by one, and leaves the fund alone |
| Admin.IsWhitespace | src/pages/AdminDashboard.tsx:109 | the characters `trim` removes: the ECMAScript white space and line terminators |
| Admin.IsBlank | src/pages/AdminDashboard.tsx:109 | the `!newMessage.trim()` test: every character is white space |
| Admin.TrimStart | src/pages/AdminDashboard.tsx:109 | a suffix of the text, with only white space dropped and a first character that is not white space |
| Admin.TrimEnd | src/pages/AdminDashboard.tsx:109 | a prefix of the text, with only white space dropped and a last character that is not white space |
| Admin.BlankIffTrimEmpty | src/pages/AdminDashboard.tsx:109 | a text is blank exactly when trimming it leaves the empty string |
| Admin.AdminMessage | src/pages/AdminDashboard.tsx:110 | the message is sent by "Admin" and carries the typed text |
| Admin.WithMessage | src/pages/AdminDashboard.tsx:111 | the message list becomes the old list (or none) followed by the new message; nothing else changes |
| Admin.WithDonationStatus | src/pages/AdminDashboard.tsx:122 | same length; donations with the id get the new status and keep every other field; the rest are untouched |
| Admin.VerifyLastWins | src/pages/AdminDashboard.tsx:120-123 | verifying the same id twice is the same as verifying it once with the second decision |
| Admin.NonApprovingVerifyKeepsTotals | src/pages/AdminDashboard.tsx:120-123 | rejecting a donation that was not approved leaves the totals unchanged |
| Admin.ApproveThenRejectKeepsTotals | src/pages/AdminDashboard.tsx:120-123 | approving and then rejecting a donation that was not approved leaves the totals as they were |
| Admin.ApproveRaisesFund | src/pages/AdminDashboard.tsx:120-123 | approving a not-yet-approved donation with a unique id raises income and balance by its amount and leaves expense alone |
| Admin.DeleteTxEffect | src/pages/AdminDashboard.tsx:144-148 | deleting a uniquely identified ledger entry removes exactly its signed contribution from the totals |
| Admin.DeleteDonationEffect | src/pages/AdminDashboard.tsx:126-130 | deleting a uniquely identified donation lowers the balance by its amount if approved, otherwise changes nothing |
| Admin.TxRecord | src/pages/AdminDashboard.tsx:138 | the id is the draft's when editing and a non-empty generated one when new; type and amount come from the draft |
| Admin.NoticeRecord | src/pages/AdminDashboard.tsx:161 | the id is the draft's when editing, generated otherwise; the notice is dated today even when edited |
| Admin.ActivityRecordAsWritten | src/pages/AdminDashboard.tsx:184 | the spread keeps the draft's id, the empty string for a new activity |
| Admin.AsWrittenNewActivitiesCollide | src/pages/AdminDashboard.tsx:184-185 | two new activities saved as written both have id "" and one delete of "" removes both |
| Admin.ActivityRecord | src/pages/AdminDashboard.tsx:184 | the intended record: the draft with its id when editing, "act-" + stamp when new, never empty |
| Admin.NewActivitiesGetDistinctIds | src/pages/AdminDashboard.tsx:184-185 | with the intended record, two new activities saved at different instants get different ids |
| Dues.EffectiveMonthly | src/pages/MemberDashboard.tsx:50 | an absent or zero monthly amount becomes 500, any other is kept; the result is never 0 |
| Dues.MonthsElapsed | src/pages/MemberDashboard.tsx:49 | within one year, the month difference plus one; in the same month of a later year, twelve per year plus one; across one year end, the months left in the join year plus the months of the new one |
| Dues.MonthsElapsedCounts | src/pages/MemberDashboard.tsx:49 | the join month counts as month 1 and each later calendar month, across year ends, adds one |
| Dues.MemberDonations | src/pages/MemberDashboard.tsx:39-40 | exactly the donations whose user id is the member's |
| Dues.MemberApprovedSum | src/pages/MemberDashboard.tsx:39-44 | the approved amounts among a member's donations sum to each donation's own contribution |
| Dues.ApprovedPaid | src/pages/MemberDashboard.tsx:42-44 | the paid-from-donations total counts exactly the donations that are both the member's and approved |
| Dues.PaidAfterAdding | src/pages/MemberDashboard.tsx:42-44 | a new donation raises a member's paid total by its amount if it is theirs and approved, otherwise not at all |
| Dues.Stats | src/pages/MemberDashboard.tsx:46-61 | total paid is the manual figure if set, else the approved sum; due is the manual due if set, else max(0, months × monthly − paid); shown due is never negative while manualDue keeps the raw value |
| Dues.PaymentLowersDue | src/pages/MemberDashboard.tsx:52-54 | without a manual due, an approved payment of one's own never raises the due and lowers it by its amount while the due covers it |
| Dues.OtherDonationKeepsStats | src/pages/MemberDashboard.tsx:39-44 | someone else's donation, or one's own that is not approved, leaves the member's figures unchanged |
| Dues.MemberOrgStats | src/pages/MemberDashboard.tsx:63-74 | the fund figure equals the unified balance and the admin's fund card; members counted as the admin counts them; activities are the list length |
| Dues.LoadMemberData | src/pages/MemberDashboard.tsx:33-78 | the current user is the first stored record with the signed-in id when there is one, else the signed-in user; the listed donations are exactly theirs; the figures are Stats of the current user and MemberOrgStats of the lists |
| Dues.PayDuePrefill | src/pages/MemberDashboard.tsx:95-99 | the prefill is the due when positive, else one month's amount |
| Dues.PrefillNonZero | src/pages/MemberDashboard.tsx:97 | for computed figures the prefill is never 0 |
| Dues.Dashboard | src/pages/MemberDashboard.tsx:101 | the dashboard is shown exactly when the current user is approved |
| Dues.DuesScenario | src/pages/MemberDashboard.tsx:46-61 | joined January 2025 at 500: owes 1500 in March; after an approved 1000 owes 500; with a manual due of 0 owes nothing |
| Payment.FormMethod | src/pages/PaymentMethods.tsx:18 | the form offers Bkash, Nagad and Rocket only |
| Payment.InitialAmount | src/pages/PaymentMethods.tsx:16 | the prefill if given, else the monthly amount if present (0 included), else 500 |
| Payment.AmountAfterPrefill | src/pages/PaymentMethods.tsx:23-27 | a given prefill replaces the field; without one the field is kept |
| Payment.PrefillWins | src/pages/PaymentMethods.tsx:16-27 | the effect agrees with the initial amount, and a given prefill wins over whatever was typed |
| Payment.ZeroMonthlyDiffers | src/pages/PaymentMethods.tsx:16 | a monthly amount of 0 is kept by the form but becomes 500 on the dashboard |
| Payment.NewDonation | src/pages/PaymentMethods.tsx:49-60 | the new donation is pending, a subscription, from the submitting user, with the form's amount, method and transaction id |
| Registration.NewUser | src/pages/Register.tsx:45-65 | a pending, unapproved member with 500 a month, created now, who may view the fund and nothing else |
| Registration.Register | src/pages/Register.tsx:23-67 | a password mismatch is refused first, then a used email; a form passing both appends the new user at the end |
| Registration.RegisterKeepsEmailsUnique | src/pages/Register.tsx:39-43 | a successful registration keeps emails unique |
| Login.MemberLogin | src/pages/Login.tsx:44-63 | unknown email iff no user has it; otherwise the first user with it is checked for password, then status, and only an approved match signs in |
| Login.LoggedInIsApprovedMember | src/pages/Login.tsx:47-59 | whoever signs in is a stored, approved user with that email and password |
| Store.RecordStore.constructor | src/pages/AdminDashboard.tsx:37-42 | a fresh store: every list empty and no ledger saved |
| Store.RecordStore.AdminOverview | src/pages/AdminDashboard.tsx:50-67 | the overview cards from the stored lists; the fund card is the unified balance |
| Store.RecordStore.MemberDashboard | src/pages/MemberDashboard.tsx:33-78 | the member dashboard from the stored lists; its fund figure equals the admin's |
| Store.RecordStore.SignIn | src/pages/Login.tsx:44-63 | the sign-in decision on the stored users; whoever signs in is a stored approved user with that password |
| Store.RecordStore.LoadFundData | src/pages/OrganizationFund.tsx:16-61 | an unsaved ledger becomes the 45000 seed entry and a saved one (even empty) is kept; returns the newest-first combined list and the totals |
| Store.RecordStore.UpdateMemberStatus | src/pages/AdminDashboard.tsx:82-88 | records with the reviewed id get the decision and the matching approved flag; others and the length are unchanged; without a reviewed user nothing changes |
| Store.RecordStore.UpdateMemberInfo | src/pages/AdminDashboard.tsx:90-98 | records with the edited id become the edited record; the length is unchanged |
| Store.RecordStore.DeleteUser | src/pages/AdminDashboard.tsx:100-106 | a confirmed delete removes the users with the id and keeps every other; an unconfirmed one changes nothing |
| Store.RecordStore.SendMessage | src/pages/AdminDashboard.tsx:108-117 | no reviewed user or a blank text changes nothing; otherwise one admin message is appended behind the earlier ones and the updated user stays under review |
| Store.RecordStore.VerifyDonation | src/pages/AdminDashboard.tsx:120-124 | only the status of donations with the id changes; rejecting a non-approved one keeps the totals; approving a unique non-approved one raises the balance by its amount |
| Store.RecordStore.DeleteDonation | src/pages/AdminDashboard.tsx:126-132 | a confirmed delete removes the donations with the id; an unconfirmed one changes nothing |
| Store.RecordStore.SubmitDonation | src/pages/PaymentMethods.tsx:62-64 | the new pending donation is prepended to the unchanged list; the totals and every member's figures stay as they were |
| Store.RecordStore.Register | src/pages/Register.tsx:23-67 | the user list becomes the registration's result, or stays as it was with the error; unique emails stay unique |
| Store.RecordStore.SubmitTx | src/pages/AdminDashboard.tsx:135-142 | the ledger is upserted and saved; a new entry grows it by one at the front, an edit keeps its length |
| Store.RecordStore.DeleteTx | src/pages/AdminDashboard.tsx:144-150 | a confirmed delete removes the entries with the id and saves the ledger |
| Store.RecordStore.SubmitNotice | src/pages/AdminDashboard.tsx:158-165 | the notices are upserted; a new notice goes to the front with id "n-" + stamp |
| Store.RecordStore.DeleteNotice | src/pages/AdminDashboard.tsx:167-173 | a confirmed delete removes the notices with the id |
| Store.RecordStore.SubmitActivity | src/pages/AdminDashboard.tsx:181-189 | the activities are upserted with the intended record; a new activity goes to the front with id "act-" + stamp |
| Store.RecordStore.DeleteActivity | src/pages/AdminDashboard.tsx:200-206 | a confirmed delete removes the activities with the id |

By construction, the datatypes of `Types` give:

- every user exactly one role and one of three statuses;
- every donation one of three statuses and one of five methods;
- every ledger entry one of two types.

## Left out

- The hard-coded admin credentials on the sign-in pages: a fixed comparison with no bookkeeping in it.
- The commented-out Express/Postgres server and the Supabase connectivity page. They are network plumbing outside the browser store.
- JSON parsing and serialisation of the stored lists, the polling intervals and the simulated delays. The store is the object's fields, and each read is a call.
- The try/catch error paths, alerts, navigation and the loading/status flags. They are user-interface effects, and none of them changes a stored list.
- Image uploads (FileReader data URLs) and clipboard access, which are browser APIs. A screenshot is an optional string parameter.
- `editTx`, `editNotice` and `editActivity`, which only copy a record into a form. The edited draft is a parameter of the submit methods.
- JavaScript date parsing and the bn-BD locale formatting. Dates are (year, month) pairs, formatted dates are strings passed in, and the sort compares an abstract date key.
- `Number(...)` coercion of malformed strings (NaN) and fractional amounts. Amounts are integers.
- Unicode `toLowerCase` and the exact set of characters `trim` removes beyond the common whitespace and line terminators. Case mapping is an abstract character function.
- Rendering and the purely presentational pages (home, committee, activities, navigation bar, routing).
- Store.RecordStore.UpdateMemberStatus: the source merges the stored record with the reviewed one (`{...u, ...reviewingUser}`). The model replaces the record outright, so a field present only in the stored copy is not kept when the reviewed copy lacks it.
- Fund.SortNewestFirst: the model proves that the order is newest first and a permutation. It does not state that entries with equal dates keep their relative order.
- Store.RecordStore.LoadFundData: the ledger visibility for signed-out visitors is the separate function `Fund.LedgerView`, not part of the method.

## Findings

| source | as written | input that shows it | evidently intended | confidence | as-written member | corrected member |
|---|---|---|---|---|---|---|
| src/pages/AdminDashboard.tsx:184 | the record sets the id to the draft's id or a generated one and then spreads the whole draft, whose own id overwrites it, so a new activity keeps the empty id | two new activities saved one after the other: both are stored with id "", and deleting one deletes both | a new activity gets the generated id "act-" + timestamp | not executed | Admin.AsWrittenNewActivitiesCollide | Admin.NewActivitiesGetDistinctIds |
