# Online banking: transfers and admin approvals

This project models the funds-movement core of a Supabase-backed online-banking web app.

The `process-transfer` edge function handles a signed-in user's transfer:
- an **internal** transfer settles at once, debiting the sender and crediting the recipient on the same balance column and writing a completed debit/credit pair of ledger rows;
- a **wire** or **local** transfer puts the funds on hold: the amount is debited and one pending ledger row is written.

The `admin-action` edge function lets an administrator decide:
- approving a pending transfer completes its row;
- rejecting it marks the row failed and refunds the amount with a credit row;
- approving a pending loan activates it and disburses the amount into checking with a credit row;
- rejecting a pending loan only marks it rejected.

The client pieces modelled are:
- the dashboard's recent-activity list and its masked card and account numbers;
- the transfer-PIN dialog;
- the wire-transfer page's balance check and request body;
- the three admin lists, with their filters, badges, expand toggles and reject dialog.

Layout:
- `js.dfy` (module `Js`) holds the JavaScript semantics the code relies on: truthiness of nullable strings, `slice` with negative indices, `filter`, ASCII `toUpperCase`/`toLowerCase`, `replace(/x/g, …)`, `includes` and `trim`.
- `store.dfy` (module `Store`) holds the database: profiles keyed by user, the ledger of transactions, loans, role rows and auth users. Money is integer cents. A nullable balance column reads as 0, like `Number(x) || 0`. The `Database` class holds the tables as mutable fields, and `Valid` is the store invariant: non-negative balances, non-negative ledger amounts, consistent balance snapshots, keyed profiles and non-negative loan amounts.
- `process_transfer.dfy` and `admin_action.dfy` model the two edge functions. Each handler is an imperative `Serve` method that takes the `Database` and performs the writes in the source's order, rollback writes included. Its postcondition ties the reply and the new state to a specification function (`Submit`, `Resolve`), and the lemmas state the handler's promises about that function.
- `workflow.dfy` runs any sequence of requests to either function. It proves that the invariant holds throughout and that decided rows and loans are never rewritten. It also proves the hold-then-reject and hold-then-approve round trips.
- The remaining files model the client components: the React state becomes class fields, and the handlers become methods.

Behaviour of the code worth noting:
- The admin reply message is built as `${action}d`, so a rejection reads "rejectd successfully". It is modelled as written, in `AdminAction.Message`.
- When `notes` is absent the admin columns are still stamped, but `admin_notes` keeps its previous value, because the client library drops undefined keys from an update. `AdminAction.MergeNotes` models this.
- The admin check uses `.single()` on `user_roles`. A user with several role rows is therefore refused even when one of them is `admin` (`Store.IsAdmin`).

## Model

| member | source | states |
|---|---|---|
| Js.OrElse | src/pages/WireTransfer.tsx:88-89 | `x \|\| d` on a nullable string: the value when it is non-empty, the default otherwise |
| Js.Slice | src/components/TransactionHistory.tsx:61 | `slice(start, end)` is the contiguous piece between the two indices, each counted from the end when negative and clamped to the length, and empty when they cross |
| Js.SlicePrefix | src/components/TransactionHistory.tsx:61 | `slice(0, n)` is the first n elements, or everything when there are fewer |
| Js.SliceLast | src/pages/Dashboard.tsx:100 | `slice(-n)` is the last n elements, or everything when there are fewer |
| Js.Filter | src/components/admin/AdminLoans.tsx:72 | `filter` keeps exactly the elements the callback accepts, and no more than there were |
| Js.FilterOrder | src/components/admin/AdminLoans.tsx:72 | two kept elements appear in the result in their original order |
| Js.FilterKeepsAll | src/components/admin/AdminUsers.tsx:54-59 | a callback accepting every element returns the whole list |
| Js.UpperChar | src/components/admin/AdminTransfers.tsx:83 | an ASCII lower-case letter maps to its capital; every other character is unchanged |
| Js.LowerChar | src/components/admin/AdminUsers.tsx:56 | an ASCII capital maps to its lower-case letter; every other character is unchanged |
| Js.ToUpper | src/components/admin/AdminTransfers.tsx:83 | `toUpperCase` maps each character and keeps the length |
| Js.ToLower | src/components/admin/AdminUsers.tsx:56 | `toLowerCase` maps each character and keeps the length |
| Js.ToUpperIdempotent | src/components/admin/AdminTransfers.tsx:83 | upper-casing twice equals upper-casing once |
| Js.ReplaceAll | src/components/admin/AdminTransfers.tsx:83 | `replace(/_/g, " ")` changes exactly the matching characters and keeps the length |
| Js.IncludesIff | src/components/admin/AdminUsers.tsx:56-58 | `s.includes(t)` holds exactly when t occurs in s at some position |
| Js.IncludesEmpty | src/components/admin/AdminUsers.tsx:56 | every string includes the empty string |
| Js.Trim | src/components/admin/AdminLoans.tsx:40 | `trim` removes exactly the leading and trailing whitespace: the result is a contiguous piece of the string with only whitespace on either side of it, and it neither starts nor ends with whitespace |
| Js.TrimEmptyIff | src/components/admin/AdminLoans.tsx:196 | `trim()` is empty exactly when every character is whitespace |
| Store.FieldFor | supabase/functions/process-transfer/index.ts:70-71 | the savings column is used exactly when accountType is "savings" |
| Store.FieldForRow | supabase/functions/admin-action/index.ts:72 | the savings column is used exactly when the row's account_type is "savings" |
| Store.Balance | supabase/functions/process-transfer/index.ts:71 | `Number(profile[field]) \|\| 0`: the stored value, or 0 when it is null |
| Store.WithBalance | supabase/functions/process-transfer/index.ts:113-116 | a balance update sets that column and leaves the other column and the rest of the profile alone |
| Store.WithBalanceRestores | supabase/functions/process-transfer/index.ts:129-136 | writing back the old balance undoes a balance update exactly |
| Store.NewRow | supabase/functions/process-transfer/index.ts:139-176 | an inserted ledger row carries the given owner, type, amount, status, reference and snapshot, with no admin columns set |
| Store.Database.constructor | supabase/functions/process-transfer/index.ts:43 | a connection to an existing store: the tables are exactly the given ones, ledger included |
| Store.RolesOf | supabase/functions/admin-action/index.ts:43-47 | the roles selected for a user are that user's roles, one entry per role row of that user |
| Store.RolesOfInOrder | supabase/functions/admin-action/index.ts:43-47 | the roles are listed in the order of the user's role rows |
| Store.IsAdmin | supabase/functions/admin-action/index.ts:43-51 | `.single()` then `role === "admin"`: exactly one role row for the user, and it says admin |
| Store.IsAdminIff | supabase/functions/admin-action/index.ts:43-51 | the admin test passes exactly when the user has one role row and it is `admin` |
| Store.SeveralRolesNotAdmin | supabase/functions/admin-action/index.ts:43-51 | a user with two role rows is refused, even when one of them says admin |
| Store.FindByEmail | supabase/functions/process-transfer/index.ts:90-95 | `users.find(u => u.email === email)`: some user when one has that email, and then the first such user |
| Store.ByAccountNumber | supabase/functions/process-transfer/index.ts:96-104 | `.single()` on account_number finds a profile exactly when one profile has that number, and then that one |
| ProcessTransfer.Recipient | supabase/functions/process-transfer/index.ts:87-104 | with an e-mail, the first auth user with it, when that user has a profile; without one, the single profile with the account number; always an existing profile |
| ProcessTransfer.SenderRow | supabase/functions/process-transfer/index.ts:139-158 | the sender's completed internal_transfer debit: amount, reference, recipient, default description and the snapshot before - amount |
| ProcessTransfer.RecipientRow | supabase/functions/process-transfer/index.ts:159-176 | the recipient's completed internal_transfer credit: amount, reference, sender, default description and the snapshot before + amount |
| ProcessTransfer.PendingRow | supabase/functions/process-transfer/index.ts:219-241 | the pending debit of a held transfer: category, default description, snapshot and every counterparty field of the request |
| ProcessTransfer.HeldCategory | supabase/functions/process-transfer/index.ts:225 | a held transfer's category is wire_transfer for "wire" and local_transfer otherwise |
| ProcessTransfer.Submit | supabase/functions/process-transfer/index.ts:23-283 | a refusal changes nothing; anything else was admissible; loans, roles and auth users are never written; old ledger rows are kept and no profile is created |
| ProcessTransfer.SubmitInternal | supabase/functions/process-transfer/index.ts:81-205 | the internal path keeps the same frame as Submit |
| ProcessTransfer.SubmitHeld | supabase/functions/process-transfer/index.ts:207-272 | the hold path keeps the same frame as Submit |
| ProcessTransfer.Serve | supabase/functions/process-transfer/index.ts:23-283 | the handler's reply and its writes to the store are exactly Submit's |
| ProcessTransfer.ServeInternal | supabase/functions/process-transfer/index.ts:81-205 | the internal path's writes, rollback included, have SubmitInternal's net effect |
| ProcessTransfer.ServeHeld | supabase/functions/process-transfer/index.ts:207-272 | the hold path's writes, rollback included, have SubmitHeld's net effect |
| ProcessTransfer.ValidAmount | supabase/functions/process-transfer/index.ts:55-57 | an amount passes when it is present and positive |
| ProcessTransfer.Admissible | supabase/functions/process-transfer/index.ts:32-76 | a signed-in caller, a valid amount, a profile and a balance covering the amount |
| ProcessTransfer.AdmissibleIff | supabase/functions/process-transfer/index.ts:32-76 | a request gets past the caller, amount, profile and balance checks exactly when it is admissible |
| ProcessTransfer.InvalidAmountRefused | supabase/functions/process-transfer/index.ts:55-57 | a missing, zero or negative amount is refused and nothing is written |
| ProcessTransfer.BalanceFieldChoice | supabase/functions/process-transfer/index.ts:70-71 | the balance checked is savings exactly for "savings", checking otherwise, null as 0 |
| ProcessTransfer.InsufficientIff | supabase/functions/process-transfer/index.ts:74-76 | refused for insufficient funds exactly when the balance is below the amount, with the available balance and no change |
| ProcessTransfer.PathByKind | supabase/functions/process-transfer/index.ts:81 | only internal transfers settle and only non-internal ones are held |
| ProcessTransfer.InternalRecipientChecks | supabase/functions/process-transfer/index.ts:83-108 | an internal transfer without a recipient, or to oneself, is refused and changes nothing |
| ProcessTransfer.RecipientFailureRollsBack | supabase/functions/process-transfer/index.ts:124-136 | a failed recipient credit is compensated: error reply and the store exactly as before |
| ProcessTransfer.InternalConserves | supabase/functions/process-transfer/index.ts:110-127 | a settled internal transfer moves exactly the amount from sender to recipient on one column, keeps their sum, and touches no other balance or profile |
| ProcessTransfer.InternalRows | supabase/functions/process-transfer/index.ts:139-176 | it appends a completed debit row for the sender and a completed credit row for the looked-up recipient, with the same reference and amount, each naming the other, and before/after snapshots |
| ProcessTransfer.HeldEffect | supabase/functions/process-transfer/index.ts:207-241 | a held transfer debits exactly the amount and appends one pending debit row carrying the category, snapshots and counterparty details |
| ProcessTransfer.SuccessReply | supabase/functions/process-transfer/index.ts:197-268 | both success replies carry the transaction reference and the sender's new balance on the chosen column, the old one less the amount |
| ProcessTransfer.HeldInsertFailureRollsBack | supabase/functions/process-transfer/index.ts:243-250 | a failed pending-row insert restores the balance: error reply and the store exactly as before |
| ProcessTransfer.SubmitPreservesValid | supabase/functions/process-transfer/index.ts:74-78 | every transfer request keeps balances non-negative and snapshots consistent |
| ProcessTransfer.InternalPreservesValid | supabase/functions/process-transfer/index.ts:110-176 | the internal path keeps balances non-negative and the two new rows' snapshots consistent |
| ProcessTransfer.HeldPreservesValid | supabase/functions/process-transfer/index.ts:207-241 | the hold path keeps balances non-negative and the pending row's snapshot consistent |
| AdminAction.MergeNotes | supabase/functions/admin-action/index.ts:82 | admin_notes is overwritten when notes are given and kept when the key is absent |
| AdminAction.Stamp | supabase/functions/admin-action/index.ts:74-84 | a decided row gets the status and the admin columns, and nothing else of it changes |
| AdminAction.StampLoan | supabase/functions/admin-action/index.ts:192-204 | a decided loan gets the status and the admin columns; borrower, amount and purpose are kept |
| AdminAction.CurrentBalance | supabase/functions/admin-action/index.ts:99-107 | the balance read is the profile's column, or 0 when there is no profile |
| AdminAction.SetBalance | supabase/functions/admin-action/index.ts:109-114 | the balance update changes only that user's column, and changes nothing when there is no such profile |
| AdminAction.RefundRow | supabase/functions/admin-action/index.ts:128-139 | the refund credit: the owner, the amount, the account type, "Refund: " and the description, "REF-" and the original reference, snapshot before + amount |
| AdminAction.DisbursementRow | supabase/functions/admin-action/index.ts:207-218 | the disbursement credit into checking: the borrower, the amount, the purpose or "Personal loan", the LOAN- reference, snapshot before + amount |
| AdminAction.LoanReference | supabase/functions/admin-action/index.ts:214 | the disbursement reference is "LOAN-" and the first eight characters of the loan id, upper-cased |
| AdminAction.Message | supabase/functions/admin-action/index.ts:153-156 | the reply message reads "approved" for approve and "rejectd" for reject |
| AdminAction.Resolve | supabase/functions/admin-action/index.ts:16-267 | a refusal changes nothing; only a signed-in admin changes anything; roles, auth users and the sets of profiles and loans are kept; no row is removed; decided rows and loans never change |
| AdminAction.ResolveTransaction | supabase/functions/admin-action/index.ts:56-156 | a transaction decision never touches loans and never rewrites a decided row |
| AdminAction.ResolveLoan | supabase/functions/admin-action/index.ts:158-254 | a loan decision never rewrites a decided row or a decided loan |
| AdminAction.Serve | supabase/functions/admin-action/index.ts:16-267 | the handler's reply and its writes are exactly Resolve's |
| AdminAction.ServeTransaction | supabase/functions/admin-action/index.ts:56-156 | the transaction branch's writes have ResolveTransaction's net effect |
| AdminAction.ServeLoan | supabase/functions/admin-action/index.ts:158-254 | the loan branch's writes have ResolveLoan's net effect |
| AdminAction.NonAdminRefused | supabase/functions/admin-action/index.ts:43-51 | a user who is not exactly an admin is refused and nothing changes |
| AdminAction.NoTargetRefused | supabase/functions/admin-action/index.ts:257 | a request naming neither a transaction nor a loan is refused |
| AdminAction.TransactionTakesPrecedence | supabase/functions/admin-action/index.ts:56 | when a transaction id is given, no loan changes |
| AdminAction.OtherActionNoChange | supabase/functions/admin-action/index.ts:74-156 | an action other than approve or reject changes nothing |
| AdminAction.ApproveTransaction | supabase/functions/admin-action/index.ts:74-84 | approving a pending row completes exactly that row, stamps it and moves no money |
| AdminAction.RejectTransactionRefunds | supabase/functions/admin-action/index.ts:97-139 | rejecting a pending row marks it failed, refunds its amount to the owner's column and appends a matching completed refund credit whose reference is "REF-" and the original reference |
| AdminAction.TransactionDecidedOnce | supabase/functions/admin-action/index.ts:68-70 | a decided row cannot be decided again: a second action is refused and changes nothing |
| AdminAction.ApproveLoanActivates | supabase/functions/admin-action/index.ts:192-204 | approving a pending loan activates it with the next payment date; no other loan changes |
| AdminAction.ApprovedLoanStore | supabase/functions/admin-action/index.ts:174-218 | approving a pending loan yields exactly: the checking credit, the activated loan, and the disbursement row appended |
| AdminAction.ApproveLoanDisburses | supabase/functions/admin-action/index.ts:182-189 | approving a loan adds its amount to the borrower's checking; savings and other profiles are untouched |
| AdminAction.ApproveLoanDisbursementRow | supabase/functions/admin-action/index.ts:207-218 | approving a loan appends one completed loan_disbursement credit into checking with the LOAN- reference and a snapshot recording the credit |
| AdminAction.RejectLoan | supabase/functions/admin-action/index.ts:230-239 | rejecting a pending loan only marks it rejected: no money moves and no row is written |
| AdminAction.LoanDecidedOnce | supabase/functions/admin-action/index.ts:160-172 | a decided loan cannot be decided again |
| AdminAction.ResolvePreservesValid | supabase/functions/admin-action/index.ts:97-218 | every admin action keeps balances non-negative and snapshots consistent |
| AdminAction.TransactionPreservesValid | supabase/functions/admin-action/index.ts:97-139 | refunds keep the store invariant |
| AdminAction.LoanPreservesValid | supabase/functions/admin-action/index.ts:174-218 | disbursements keep the store invariant |
| Workflow.SettlesTransitive | supabase/functions/admin-action/index.ts:68-70 | "decided rows stay decided" composes over consecutive runs |
| Workflow.StepKeeps | supabase/functions/process-transfer/index.ts:23-283 | any single request to either function keeps the invariant and the decided part of the store |
| Workflow.RunKeeps | supabase/functions/admin-action/index.ts:16-267 | after any sequence of requests the invariant holds and no decided row or loan was rewritten |
| Workflow.HoldThenRejectRestores | supabase/functions/admin-action/index.ts:97-139 | holding a transfer and then rejecting it restores the sender's balance, fails the held row and refunds exactly the held amount |
| Workflow.HoldThenApproveKeepsDebit | supabase/functions/admin-action/index.ts:74-84 | holding and then approving leaves the amount debited and the row completed |
| TransactionHistory.OnInsert | src/components/TransactionHistory.tsx:61 | an inserted entry goes first |
| TransactionHistory.InsertShape | src/components/TransactionHistory.tsx:61 | after an insert the list has at most ten entries, and the old ones follow the new entry shifted by one |
| TransactionHistory.OnUpdate | src/components/TransactionHistory.tsx:79-81 | an update replaces exactly the entries with the event's id and keeps the length |
| TransactionHistory.UpdateAbsentNoChange | src/components/TransactionHistory.tsx:79-81 | an update for an unknown id leaves the list unchanged |
| TransactionHistory.UpdateIdempotent | src/components/TransactionHistory.tsx:79-81 | delivering the same update twice equals delivering it once |
| TransactionHistory.UpdateKeepsIds | src/components/TransactionHistory.tsx:79-81 | an update never changes the ids in the list |
| TransactionHistory.FormatAmount | src/components/TransactionHistory.tsx:100-106 | "+" before a credit's amount and "-" before anything else, with the formatted amount unchanged |
| TransferPinDialog.WithPin | src/components/TransferPinDialog.tsx:42-45 | storing the PIN changes only the user's own profile |
| TransferPinDialog.PinDialog.constructor | src/components/TransferPinDialog.tsx:18-21 | the dialog starts empty, in the enter step and idle |
| TransferPinDialog.PinDialog.Input | src/components/TransferPinDialog.tsx:122-129 | typing sets the confirmation in create mode's confirm step and the PIN otherwise, so the field shows what was typed |
| TransferPinDialog.PinDialog.ButtonEnabled | src/components/TransferPinDialog.tsx:141 | the button is enabled when idle and the step's code has four characters |
| TransferPinDialog.PinDialog.ButtonEnabledIff | src/components/TransferPinDialog.tsx:122-141 | the button is enabled exactly when the dialog is idle and the code the field shows is complete |
| TransferPinDialog.PinDialog.CreatePin | src/components/TransferPinDialog.tsx:24-56 | in the enter step it moves to confirm exactly when the button was enabled, i.e. the PIN has four characters; a mismatch clears the confirmation; a match stores the PIN on the user's profile unless the write fails, and only then succeeds |
| TransferPinDialog.PinDialog.VerifyPin | src/components/TransferPinDialog.tsx:58-87 | succeeds exactly when a four-character PIN equals the stored one; a wrong PIN is cleared |
| TransferPinDialog.PinDialog.Close | src/components/TransferPinDialog.tsx:89-94 | closing forgets both codes and returns to the enter step |
| TransferPinDialog.PinDialog.GoBack | src/components/TransferPinDialog.tsx:156-162 | Go Back returns to the enter step with the confirmation cleared and the PIN kept |
| WireTransfer.AvailableBalance | src/pages/WireTransfer.tsx:72-77 | 0 before the profile is loaded, otherwise the chosen column with null as 0 |
| WireTransfer.AvailableMatchesServer | src/pages/WireTransfer.tsx:72-77 | the page checks the same balance the server checks |
| WireTransfer.FindBeneficiary | src/pages/WireTransfer.tsx:80 | `find` returns the first beneficiary with the id, and none exactly when no beneficiary has it |
| WireTransfer.AfterSelect | src/pages/WireTransfer.tsx:79-92 | choosing a known beneficiary fills the recipient fields, null SWIFT and IBAN as ""; an unknown id changes nothing |
| WireTransfer.RequestBody | src/pages/WireTransfer.tsx:113-125 | the body is a "wire" request with the form's account type, amount, bank, account number, SWIFT code and IBAN, a default description and no empty beneficiary id |
| WireTransfer.Decide | src/pages/WireTransfer.tsx:94-125 | the page sends exactly when the amount is positive, within the available balance and there is a session |
| WireTransfer.SentRequestIsHeld | src/pages/WireTransfer.tsx:99-125 | whatever the page sends passes the server's checks and is held when no write fails |
| WireTransfer.WireTransferPage.constructor | src/pages/WireTransfer.tsx:31-41 | the form starts empty with the checking account chosen |
| WireTransfer.WireTransferPage.SelectBeneficiary | src/pages/WireTransfer.tsx:79-92 | the form becomes AfterSelect of the old form |
| WireTransfer.WireTransferPage.Submit | src/pages/WireTransfer.tsx:94-125 | the outcome is Decide's, and loading is lowered at the end |
| AdminCommon.Toggle | src/components/admin/AdminLoans.tsx:89 | clicking the expanded row collapses it; clicking another row expands only that one |
| AdminCommon.ToggleTwice | src/components/admin/AdminTransfers.tsx:76 | clicking the same row twice restores the state when it or no row was expanded, and leaves no row expanded when another one was |
| AdminCommon.CanReject | src/components/admin/AdminLoans.tsx:40 | `rejectDialog.id && rejectNotes.trim()`: a row is chosen and the trimmed reason is not empty |
| AdminCommon.CanRejectIff | src/components/admin/AdminLoans.tsx:40 | a rejection is sent exactly when a row is chosen and the reason has a non-whitespace character |
| AdminCommon.ReviewList.constructor | src/components/admin/AdminLoans.tsx:35-37 | the dialog starts closed, with no row chosen, an empty reason and no row expanded |
| AdminCommon.ReviewList.ClickRow | src/components/admin/AdminLoans.tsx:89 | a row click toggles the expanded row and nothing else |
| AdminCommon.ReviewList.OpenReject | src/components/admin/AdminLoans.tsx:161 | the Reject button opens the dialog for that row |
| AdminCommon.ReviewList.SetNotes | src/components/admin/AdminLoans.tsx:184 | typing sets the reason |
| AdminCommon.ReviewList.OpenChange | src/components/admin/AdminLoans.tsx:175 | closing the dialog forgets the row; opening keeps it |
| AdminCommon.ReviewList.Cancel | src/components/admin/AdminLoans.tsx:190 | Cancel closes the dialog and forgets the row |
| AdminCommon.ReviewList.ConfirmDisabled | src/components/admin/AdminLoans.tsx:196 | "Confirm Rejection" is disabled while the trimmed reason is empty |
| AdminCommon.ReviewList.ConfirmDisabledIff | src/components/admin/AdminTransfers.tsx:205 | the button is disabled exactly when the reason is all whitespace, and with a row chosen exactly when handleReject would do nothing |
| AdminCommon.ReviewList.HandleReject | src/components/admin/AdminLoans.tsx:39-45 | with a chosen row and a non-blank reason: reject that row with the typed reason, then close and clear; otherwise nothing happens |
| AdminLoans.DisplayLoans | src/components/admin/AdminLoans.tsx:72 | all loans with showAll, otherwise the pending ones |
| AdminLoans.PendingView | src/components/admin/AdminLoans.tsx:72 | without showAll the list holds exactly the pending loans, in order |
| AdminLoans.ActionsShown | src/components/admin/AdminLoans.tsx:114-143 | the approve and reject controls appear for a loan that is expanded and pending |
| AdminLoans.ActionsShownPendingOnly | src/components/admin/AdminLoans.tsx:114-143 | the controls are offered only for a pending loan, for one id at a time, and clicking that row hides them |
| AdminLoans.StatusColor | src/components/admin/AdminLoans.tsx:57-70 | each known status has its badge colour, and any other status the default |
| AdminLoans.StatusColorsDistinct | src/components/admin/AdminLoans.tsx:57-70 | the four known statuses have four different badges, none of them the default |
| AdminTransfers.CategoryLabel | src/components/admin/AdminTransfers.tsx:83 | the label is the category with underscores as spaces, upper-cased: no underscores, no lower-case letters, same length |
| AdminTransfers.CategoryLabelIdempotent | src/components/admin/AdminTransfers.tsx:83 | relabelling a label changes nothing |
| AdminUsers.Matches | src/components/admin/AdminUsers.tsx:54-59 | the name includes the term case-insensitively, or the account number or phone the user has includes it |
| AdminUsers.FilteredUsers | src/components/admin/AdminUsers.tsx:54-59 | the list holds exactly the users that match the search |
| AdminUsers.MatchesIff | src/components/admin/AdminUsers.tsx:54-59 | a user matches exactly when the term occurs in the lower-cased name (case-insensitively), or in the account number or phone the user has |
| AdminUsers.NullAccountNumberNeverMatches | src/components/admin/AdminUsers.tsx:57 | a null account number matches nothing: the user is found by name or phone only |
| AdminUsers.NullPhoneNeverMatches | src/components/admin/AdminUsers.tsx:58 | a null phone matches nothing: the user is found by name or account number only |
| AdminUsers.NullFieldsNeverMatch | src/components/admin/AdminUsers.tsx:57-58 | a user with neither account number nor phone is found by name only |
| AdminUsers.EmptyTermKeepsAll | src/components/admin/AdminUsers.tsx:54-59 | an empty search lists every user |
| AdminUsers.FilteredKeepsOrder | src/components/admin/AdminUsers.tsx:54-59 | the search keeps the list's order |
| AdminUsers.CardMask | src/components/admin/AdminUsers.tsx:156 | "****" and the last four characters of the card, or "N/A" without a card |
| AdminUsers.Location | src/components/admin/AdminUsers.tsx:150 | "city, country" when both are non-empty, "N/A" otherwise |
| AdminUsers.UsersPanel.constructor | src/components/admin/AdminUsers.tsx:43-51 | the panel starts with no search, nothing expanded and the dialog closed |
| AdminUsers.UsersPanel.Visible | src/components/admin/AdminUsers.tsx:54-59 | the listed rows are exactly the users matching the current search, and all users while it is empty |
| AdminUsers.UsersPanel.SetSearch | src/components/admin/AdminUsers.tsx:88 | typing sets the search term |
| AdminUsers.UsersPanel.ClickRow | src/components/admin/AdminUsers.tsx:99 | a row click toggles the expanded row |
| AdminUsers.UsersPanel.ViewTransactions | src/components/admin/AdminUsers.tsx:61-70 | the dialog opens for the user and shows the fetched transactions; a failed fetch keeps the previous list |
| AdminUsers.UsersPanel.DialogOpenChange | src/components/admin/AdminUsers.tsx:197 | the dialog's open change affects only whether it is open |
| Dashboard.FormatCardNumber | src/pages/Dashboard.tsx:98-101 | the first four and the last four characters around "XXXX XXXX", or all X without a card |
| Dashboard.FormatAccountNumber | src/pages/Dashboard.tsx:103-106 | "•••• " and the last four characters, or "•••• 0000" without an account number |
| Dashboard.CardFace | src/pages/Dashboard.tsx:311-314 | a card number is shown as its pieces [0,4), [4,8), [8,12) and [12,16), each cut at the end of the number, joined by single spaces; without one the face shows four groups of bullets |
| Dashboard.CardFaceGroups | src/pages/Dashboard.tsx:311-314 | the four groups are consecutive pieces spelling the first sixteen characters |
| Dashboard.AvatarInitial | src/pages/Dashboard.tsx:181 | the name's first character upper-cased, or "U" without a name |

## Left out

- HTTP transport, CORS headers, the OPTIONS preflight, status codes and environment variables are left out. The handlers take the parsed body and the identity of the caller (`Store.Caller`).
- The transaction reference (`Date.now()` and `Math.random()`) is a parameter (`txRef`), because clocks and randomness are inputs here. The admin timestamp `now` and the loan's next payment date are parameters too.
- Amounts are integer cents, and an amount that is missing or does not parse is `None`. `parseFloat` and JavaScript floating-point arithmetic are not modelled.
- Currency formatting (`toFixed`, `toLocaleString`, `Intl`) is an input of `TransactionHistory.FormatAmount`. Date formatting (`formatDate`) is left out.
- Concurrency is left out: requests are applied one at a time (`Workflow.Run`), so two handlers racing on one balance are not modelled.
- Reads whose errors the source ignores are modelled as succeeding. The profile reads of the refund and of the loan disbursement in admin-action (lines 99-103 and 176-180) do not check their error. If such a read failed for an existing profile, the balance would be taken as 0, and the update would overwrite the balance with the refund or loan amount alone. The model always reads the stored balance.
- Writes whose errors the source ignores are modelled as always succeeding: the rollback writes, the two internal-path ledger inserts and every admin-action write. The write errors the source does check are `ProcessTransfer.WriteFaults` parameters.
- Notifications and console logging in both edge functions are left out. They never change balances, ledger rows or loans.
- The generic "unknown error" catch path is not modelled separately. Every throw is one `TransferError` or `AdminError` value.
- `auth.admin.listUsers()` is the `authUsers` table of the store. Paging of that call is not modelled.
- Case mapping is ASCII only: `toUpperCase`/`toLowerCase` on other Unicode letters is not modelled.
- `AdminAction.Request`: a `notes` key explicitly set to null is not told apart from an absent one.
- Transaction ids are positions in the ledger rather than UUIDs. An empty-string `transactionId` is modelled as absent.
- After the call, the wire page's handling of the response (toast, navigation, reloading) is left out. `WireTransfer.WireTransferPage.Submit` stops at the request it would send.
- The transaction list's initial fetch and the realtime channel setup are left out. Only the INSERT and UPDATE updaters are modelled.
- The admin user list's freeze toggle (`onFreezeToggle`) and the frozen badge are left out. They are calls into the admin page, which is not part of this model.
- The data loading of the admin pages and the dashboard is left out. Lists and profiles are inputs.
- The dashboard's quick-action grid and other purely presentational markup are left out.
