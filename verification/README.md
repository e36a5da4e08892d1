# botwallets ledger model

A Dafny model of the local ledger of `botwallets`, a Cashu ecash wallet
for bots. The wallet keeps three SQLite tables:

- `wallets`: one metadata row per wallet;
- `proofs`: the ecash proofs, each `unspent`, `pending` or `spent`;
- `transactions`: a log of `receive`, `send`, `mint` and `melt` records,
  each `pending`, `completed` or `failed`.

It drives those tables through a small state machine around calls to a
Cashu token engine.

The model is purely functional. The whole database is one `Schema.Store`
value:

- the proof and transaction tables are sequences in rowid order;
- the wallet table is a map;
- timestamps read an abstract clock `now`.

Every storage statement is a function from store to store. A statement
SQLite can refuse returns a `Result` that carries a `ConstraintViolation`
(primary key or foreign key). A `database.transaction(...)` block is a
sub-step: when it fails, the caller keeps the store it had before the
block.

The token engine is not modelled. Each engine call becomes an outcome
parameter of the wallet operation: either `Success(data)` or `Failure(e)`,
where `e` is an engine error. A proof therefore covers every answer the
mint could give.

Modules, following the source's files:

| module | file of the program |
|---|---|
| `Schema` | the three tables, their constraints (`Valid`) and the balance |
| `ProofStore` | the proof ledger: insert, unspent, balance, coin selection, the three bulk updates |
| `TransactionStore` | the transaction log: insert, `updateStatus`, query with filter, order and paging |
| `WalletMetaStore` | the wallet metadata table |
| `BotWallet` | the wallet operations, with the engine's outcomes as parameters |
| `BotWalletProperties` | what those operations guarantee about the ledger and the log |
| `GuardedMint`, `GuardedSettle`, `GuardedStores` | corrected versions of the behaviours listed under Findings, each proved against the original |
| `WalletCli` | the command-line flag reader |
| `Config` | configuration precedence |
| `Errors`, `Engine`, `Wrappers`, `Sequences` | the error taxonomy, the engine's data, `Result`/`Option`, and sums, sorting and distinctness over sequences |

The properties proved include:

- every operation keeps the table constraints;
- coin selection picks the shortest ascending prefix that covers the
  target, and picks nothing exactly when the balance does not cover it;
- value is conserved: the balance changes by the engine's proofs minus the
  selected proofs;
- a failure after a reservation gives back every reserved proof;
- no operation leaves a proof pending;
- the command-line reader's token list round-trips to the arguments;
- the last value of a repeated flag wins.

## Model

| member | source | states |
|---|---|---|
| ProofStore.InsertProof | src/storage/ProofStore.ts:44-49 | one INSERT succeeds exactly when the `C` is a new id and the wallet row exists, and appends an unspent row created by the transaction with no `spent_by_tx`; otherwise it is a constraint violation |
| ProofStore.InsertProofs | src/storage/ProofStore.ts:39-51 | every proof is stored, in order, exactly when the wallet exists and every `C` is new both to the table and within the list |
| ProofStore.InsertProofsPartial | src/storage/ProofStore.ts:39-51 | each INSERT commits on its own, so a refused proof leaves the rows of the proofs before it in place; the refusal is a constraint violation and the other tables are unchanged |
| ProofStore.InsertProofsValid | src/storage/ProofStore.ts:39-51 | whatever part of the insert ran, the table constraints still hold |
| ProofStore.NewProofsBalance | src/storage/ProofStore.ts:39-51 | inserted proofs add their amounts to their own wallet's balance and to no other wallet's |
| ProofStore.GetUnspentProofs | src/storage/ProofStore.ts:53-58 | exactly the wallet's unspent rows |
| ProofStore.UnspentOf | src/storage/ProofStore.ts:53-58 | the rows with the wallet id and state `unspent`, and no others |
| ProofStore.BalanceIsUnspentSum | src/storage/ProofStore.ts:101-106 | the sum of the unspent rows' amounts is the wallet balance |
| ProofStore.GetBalance | src/storage/ProofStore.ts:101-106 | the balance over the wallet's unspent rows, and 0 when it has none (`COALESCE`) |
| ProofStore.UnspentOfDistinct | src/storage/ProofStore.ts:53-58 | with the primary key, the unspent rows carry distinct ids |
| ProofStore.SortedUnspent | src/storage/ProofStore.ts:60-62 | the unspent rows sorted by ascending amount: a permutation of them with the same sum |
| ProofStore.TakeUntilCovered | src/storage/ProofStore.ts:63-70 | the loop takes a prefix, stops as soon as the running total reaches the target, and takes everything when nothing covers it |
| ProofStore.SelectFromSpec | src/storage/ProofStore.ts:63-73 | on an ascending list the selection is empty exactly when the target is not positive or the whole list does not cover it; otherwise it covers the target and its last proof is needed |
| ProofStore.SelectProofsForAmount | src/storage/ProofStore.ts:60-74 | empty exactly when the target is not positive or the balance is below it; otherwise it covers the target, dropping its last proof does not, and every pick is an unspent proof of the wallet |
| ProofStore.SelectionIsSortedPrefix | src/storage/ProofStore.ts:60-74 | the selection is a prefix of the wallet's unspent proofs sorted by amount |
| ProofStore.SelectedBalance | src/storage/ProofStore.ts:60-74 | the part of the balance held by the selected ids is the selection's sum |
| ProofStore.UpdateEach | src/storage/ProofStore.ts:76-99 | running one UPDATE per listed id changes every row whose id is listed, however often it is listed, and leaves every other row alone |
| ProofStore.MarkPending | src/storage/ProofStore.ts:76-83 | every listed row becomes pending and reserved by the transaction, whatever its state was; other rows stay and unknown ids are ignored |
| ProofStore.MarkSpent | src/storage/ProofStore.ts:85-90 | every listed row becomes spent whatever its state was, and keeps its `spent_by_tx` |
| ProofStore.RollbackPending | src/storage/ProofStore.ts:92-99 | every listed row becomes unspent with its reservation cleared, whatever its state was |
| ProofStore.RollbackUndoesMarkPending | src/storage/ProofStore.ts:76-99 | rolling back a reservation of unspent, unreserved rows gives back the same ledger |
| ProofStore.MarkPendingBalance | src/storage/ProofStore.ts:76-83 | a reservation lowers each wallet's balance by the listed part of it |
| ProofStore.MarkSpentBalance | src/storage/ProofStore.ts:85-90 | spending lowers each wallet's balance by the listed part of it |
| ProofStore.SpendReservedBalance | src/storage/ProofStore.ts:76-90 | a reservation followed by spending takes the listed proofs out of the balance for good |
| ProofStore.BalanceAfterRetire | src/storage/ProofStore.ts:76-90 | any change that moves the listed rows out of `unspent` and leaves the rest alone lowers the balance by the listed part |
| Schema.EmptyStore | src/storage/schema.ts:1-57 | a freshly migrated database satisfies every table constraint |
| Schema.SameIdSameProof | src/storage/schema.ts:10-12 | under the primary key, two proof rows with the same id are one row |
| TransactionStore.Insert | src/storage/TransactionStore.ts:49-77 | succeeds exactly when the id is new and the wallet exists, and appends one pending record with fee 0, the given fields, the memo's fields or NULL, and both timestamps now; otherwise it reports which constraint refused it |
| TransactionStore.InsertValid | src/storage/TransactionStore.ts:49-77 | an insert keeps the table constraints |
| TransactionStore.UpdateStatus | src/storage/TransactionStore.ts:79-104 | the record with the id takes the new status and `updated_at`, and the amount, fee and token only when given; every other record and table is unchanged |
| TransactionStore.UpdateStatusValid | src/storage/TransactionStore.ts:79-104 | an update keeps the table constraints |
| TransactionStore.UpdateStatusUnknownId | src/storage/TransactionStore.ts:100-103 | an id no record has changes nothing |
| TransactionStore.UpdateStatusIdempotent | src/storage/TransactionStore.ts:79-104 | the same update twice is the update once |
| TransactionStore.UpdateStatusReopens | src/storage/TransactionStore.ts:84-100 | a completed or failed record takes whatever status a later update asks for |
| TransactionStore.Filter | src/storage/TransactionStore.ts:106-117 | exactly the wallet's records of the asked type and status |
| TransactionStore.Ordered | src/storage/TransactionStore.ts:106-119 | a permutation of the matching records, newest first |
| TransactionStore.Page | src/storage/TransactionStore.ts:121-128 | the window starting at the offset, as long as a positive limit allows; an offset without a limit is the SQL error |
| TransactionStore.PagesTile | src/storage/TransactionStore.ts:121-128 | two consecutive pages of size n together are the page of size 2n |
| TransactionStore.PageKeeps | src/storage/TransactionStore.ts:121-131 | a page keeps records and their order, and with neither option it is the whole list |
| TransactionStore.Query | src/storage/TransactionStore.ts:106-132 | fails exactly when an offset comes without a limit; otherwise the run of the wallet's matching records, newest first, that starts past the offset and is as long as a positive limit allows (to the end without one), so only matching records and, with no paging, all of them |
| TransactionStore.PageIgnoresFilters | src/storage/TransactionStore.ts:121-128 | LIMIT and OFFSET alone decide the page cut from an ordered list |
| TransactionStore.FilterIgnoresPaging | src/storage/TransactionStore.ts:106-117 | which records match depends on the type and status filters, never on limit or offset |
| TransactionStore.QueryPagesTile | src/storage/TransactionStore.ts:106-132 | for any filters, two consecutive query pages of n records are the query page of 2n records from the same offset |
| TransactionStore.InsertThenQuery | src/storage/TransactionStore.ts:49-132 | a record just inserted is found by its wallet's query, pending, with its memo |
| WalletMetaStore.Upsert | src/storage/WalletMetaStore.ts:18-26 | a new wallet id gets a row stamped now; an existing row changes only `updated_at`; other rows stay |
| WalletMetaStore.UpsertValid | src/storage/WalletMetaStore.ts:18-26 | the upsert keeps the table constraints |
| WalletMetaStore.UpsertIdempotent | src/storage/WalletMetaStore.ts:18-26 | a second upsert of the same id at the same time changes nothing, whatever mint and unit it names |
| WalletMetaStore.Get | src/storage/WalletMetaStore.ts:28-32 | nothing exactly for an unknown id, the stored row otherwise |
| WalletMetaStore.GetAfterUpsert | src/storage/WalletMetaStore.ts:18-32 | after an upsert the row exists and keeps the first mint URL and unit it was given |
| WalletMetaStore.GetCreatedAt | src/storage/WalletMetaStore.ts:34-37 | the stored `created_at`, or the fallback when the wallet has no row |
| WalletMetaStore.CreatedAtSurvivesUpsert | src/storage/WalletMetaStore.ts:18-37 | a later upsert never changes a wallet's creation time |
| BotWallet.Open | src/BotWallet.ts:30-48 | the constructor's upsert: the wallet has a row, a new row takes the given mint and unit, and the ledger and log are untouched |
| BotWallet.GetBalance | src/BotWallet.ts:50-52 | the sum of the wallet's unspent proofs |
| BotWallet.GetTransactions | src/BotWallet.ts:249-251 | the log query for this wallet id: fails exactly when an offset comes without a limit, otherwise the window of this wallet's matching records, newest first, cut by the offset and limit, and all of them with no paging |
| BotWallet.GetInfo | src/BotWallet.ts:253-261 | the wallet's id, mint and unit, its balance, and its stored creation time |
| BotWallet.Reserve | src/BotWallet.ts:98-107 | the insert and `markPending` as one block: it fails only when the insert does, and then changes nothing |
| BotWallet.Commit | src/BotWallet.ts:120-126 | the spend-insert-complete block succeeds exactly when the incoming proofs can all be inserted |
| BotWallet.Abort | src/BotWallet.ts:130-133 | the `catch` block: every listed proof is unspent and the record is failed |
| BotWallet.Receive | src/BotWallet.ts:54-82 | an undecodable token fails with `InvalidToken` and changes nothing; success returns the sum of the engine's proofs |
| BotWallet.Send | src/BotWallet.ts:84-136 | fails with `InsufficientBalance` and changes nothing exactly when the amount is not positive or above the balance; success returns the engine's token |
| BotWallet.SendSettle | src/BotWallet.ts:109-135 | after the reservation: success exactly when the engine and the commit succeed; any failure rolls back and rethrows the engine's error or the commit's constraint violation |
| BotWallet.CreateMintInvoice | src/BotWallet.ts:138-157 | returns the quote's fields and adds one pending `mint` record with the quote id, invoice and amount asked for; an engine failure changes nothing |
| BotWallet.FirstWithQuote | src/BotWallet.ts:168 | the position of the first record with the quote id; none before it has the id |
| BotWallet.FindByQuote | src/BotWallet.ts:168 | `find`: nothing exactly when no record has the quote id, otherwise the first that does |
| BotWallet.ClaimMint | src/BotWallet.ts:166-173 | with no matching `mint` record the block changes nothing; a failure is a constraint violation |
| BotWallet.CheckMintQuote | src/BotWallet.ts:159-179 | an unpaid quote returns null and changes nothing; a failure changes nothing; a returned amount is the minted sum |
| BotWallet.PayInvoice | src/BotWallet.ts:181-247 | a quote failure is rethrown; `InsufficientBalance` exactly when amount plus fee reserve is not positive or above the balance; success reports paid, preimage, change and fee = reserve - change |
| BotWallet.PaySettle | src/BotWallet.ts:211-246 | after the reservation: success exactly when the melt and the commit succeed; any failure rolls back and rethrows the engine's error or the commit's constraint violation |
| BotWalletProperties.SelectedAreUnspent | src/BotWallet.ts:90-106 | every row a selection's ids name is an unspent proof of the wallet |
| BotWalletProperties.UpdateNewRecord | src/BotWallet.ts:120-133 | closing the record a step just appended leaves the older records alone |
| BotWalletProperties.ReserveAbortRestores | src/BotWallet.ts:98-133 | a reservation of unspent proofs and the `catch` leave the ledger as it was and one failed record |
| BotWalletProperties.ReserveAbortNoPending | src/BotWallet.ts:98-133 | a reservation and the `catch` leave nothing pending |
| BotWalletProperties.ReserveCommitBalance | src/BotWallet.ts:98-126 | a reservation and its commit change each balance by the engine's proofs minus the listed proofs |
| BotWalletProperties.ReserveCommitShape | src/BotWallet.ts:98-126 | after a reservation and its commit: the listed rows spent, the engine's proofs appended, one record in its final status, nothing pending |
| BotWalletProperties.ReserveCommitSpends | src/BotWallet.ts:98-126 | every listed row ends spent by the record |
| BotWalletProperties.ReserveCommitRecord | src/BotWallet.ts:98-126 | the closed record carries the inserted fields overwritten by the commit's updates |
| BotWalletProperties.ReserveValid | src/BotWallet.ts:98-107 | a reservation keeps the table constraints |
| BotWalletProperties.CommitValid | src/BotWallet.ts:120-126 | a commit keeps the table constraints |
| BotWalletProperties.CommittedBalance | src/BotWallet.ts:90-126 | after committing a selection, the balance is the old one minus the selection plus the engine's proofs |
| BotWalletProperties.CommittedBalanceOf | src/BotWallet.ts:98-126 | the same for any listed ids |
| BotWalletProperties.CommittedStore | src/BotWallet.ts:98-126 | the committed record's fields and the spent rows |
| BotWalletProperties.SendSuccess | src/BotWallet.ts:84-128 | a `send` that returns a token has covered the amount, and the balance is the old one minus the selection plus the kept change; one completed `send` record carries the token and amount |
| BotWalletProperties.SendSpends | src/BotWallet.ts:117-126 | a successful `send` spends every selected proof on behalf of its record |
| BotWalletProperties.SendRecord | src/BotWallet.ts:99-125 | the completed `send` record carries the token returned and the amount asked for |
| BotWalletProperties.SendFailureRestores | src/BotWallet.ts:84-135 | a `send` that throws leaves the ledger and the balance as they were, and at most one failed `send` record |
| BotWalletProperties.SendRethrows | src/BotWallet.ts:129-135 | past the reservation, a failing `send` throws the engine's error, or the commit's constraint violation |
| BotWalletProperties.SendReaches | src/BotWallet.ts:84-109 | past the balance check and the reservation, `send` is its settlement |
| BotWalletProperties.SendCommitFailureRevives | src/BotWallet.ts:117-135 | a commit refused after the engine's send makes the call throw with every selected proof unspent again and the balance unchanged |
| BotWalletProperties.SendPaths | src/BotWallet.ts:84-136 | a `send` ends before the reservation with nothing changed, in the `catch`, or committed, and success means committed |
| BotWalletProperties.SendNoPending | src/BotWallet.ts:84-136 | whatever the engine does, `send` leaves no new pending proof |
| BotWalletProperties.SendValid | src/BotWallet.ts:84-136 | `send` keeps the table constraints |
| BotWalletProperties.PayPaths | src/BotWallet.ts:181-247 | a `payInvoice` ends with nothing changed, in the `catch`, or successful |
| BotWalletProperties.PayCommits | src/BotWallet.ts:198-232 | a `payInvoice` that returns has reserved the selection and committed the melt's outcome |
| BotWalletProperties.PayInvoiceSuccess | src/BotWallet.ts:181-239 | after the melt the selection covered amount plus fee reserve, and the balance is the old one minus the selection plus the change |
| BotWalletProperties.PayCommittedBalance | src/BotWallet.ts:190-232 | the balance in the store a melt's commit leaves |
| BotWalletProperties.PayInvoiceRecord | src/BotWallet.ts:198-232 | the `melt` record is completed exactly when the quote is paid (failed otherwise), with the quote's amount and id and fee = reserve - change |
| BotWalletProperties.PayCommittedRecord | src/BotWallet.ts:198-232 | the `melt` record in the store a melt's commit leaves |
| BotWalletProperties.PayInvoiceSpends | src/BotWallet.ts:224-232 | after the melt every selected proof is spent by the `melt` record |
| BotWalletProperties.PayCommittedSpends | src/BotWallet.ts:224-232 | the rows a melt's commit spends |
| BotWalletProperties.PayInvoiceFailureRestores | src/BotWallet.ts:181-246 | a `payInvoice` that throws leaves the ledger and the balance as they were, and at most one failed `melt` record |
| BotWalletProperties.PayInvoiceRethrows | src/BotWallet.ts:240-246 | past the reservation, a failing `payInvoice` throws the engine's error, or the commit's constraint violation |
| BotWalletProperties.PayReaches | src/BotWallet.ts:181-211 | past the balance check and the reservation, `payInvoice` is its settlement |
| BotWalletProperties.PayCommitFailureRevives | src/BotWallet.ts:219-246 | a commit refused after the melt makes the call throw with every selected proof unspent again and the balance unchanged |
| BotWalletProperties.PayInvoiceNoPending | src/BotWallet.ts:181-247 | `payInvoice` leaves no new pending proof |
| BotWalletProperties.PayInvoiceValid | src/BotWallet.ts:181-247 | `payInvoice` keeps the table constraints |
| BotWalletProperties.ReceiveSuccess | src/BotWallet.ts:54-77 | a `receive` that returns has stored the engine's proofs as unspent rows, raised the balance by their sum, and completed its record with that sum |
| BotWalletProperties.ReceiveFailure | src/BotWallet.ts:54-82 | a `receive` that throws leaves the ledger as it was, and either the log as it was or one failed record at the token's face value |
| BotWalletProperties.ReceiveValid | src/BotWallet.ts:54-82 | `receive` keeps the table constraints |
| BotWalletProperties.ReceiveNoPending | src/BotWallet.ts:54-82 | `receive` leaves no new pending proof |
| BotWalletProperties.CreateMintInvoiceValid | src/BotWallet.ts:138-157 | `createMintInvoice` keeps the table constraints |
| BotWalletProperties.MintRecordsAreMints | src/BotWallet.ts:167-168 | the record found is a `mint` record of the wallet with the quote id |
| BotWalletProperties.CheckMintQuoteCredits | src/BotWallet.ts:159-175 | with a paid quote and a matching record of any status, the minted proofs are stored under the first such record, which is completed with their sum, the sum the call returns |
| BotWalletProperties.CreditedOnce | src/BotWallet.ts:159-175 | one paid check with a record credits the sum and leaves the record findable |
| BotWalletProperties.CheckMintQuoteDropsUnmatchedMint | src/BotWallet.ts:162-175 | with no matching record the minted sum is returned but nothing is stored |
| BotWalletProperties.CheckMintQuoteLosesMintedProofs | src/BotWallet.ts:162-175 | a fresh wallet with no record for a paid quote reports 64 minted and keeps a balance of 0 |
| BotWalletProperties.CheckMintQuoteCreditsTwice | src/BotWallet.ts:162-175 | two checks of the same paid quote credit the wallet twice |
| BotWalletProperties.FoundIfPresent | src/BotWallet.ts:167-168 | a `mint` record of the wallet with the quote id is always found |
| BotWalletProperties.CheckMintQuoteValid | src/BotWallet.ts:159-179 | `checkMintQuote` keeps the table constraints |
| BotWalletProperties.GetTransactionsPagesTile | src/BotWallet.ts:249-251 | consecutive `getTransactions` pages of n records join into the page of 2n records: paging skips and repeats nothing |
| BotWalletProperties.CheckMintQuoteNoPending | src/BotWallet.ts:159-179 | `checkMintQuote` leaves no new pending proof |
| GuardedMint.GuardedCheckMintQuote | src/BotWallet.ts:159-179 | the corrected check: it returns null and changes nothing unless the quote is paid and a pending `mint` record of it exists; a returned amount is the minted sum |
| GuardedMint.PendingFound | src/BotWallet.ts:167-168 | the record the corrected check claims is a pending `mint` record of the wallet for the quote |
| GuardedMint.GuardedClaimStoresWhatItReports | src/BotWallet.ts:162-175 | whatever the corrected check reports, the balance has grown by exactly that much and a pending record of the quote is now completed with it |
| GuardedMint.GuardedClaimIdempotent | src/BotWallet.ts:162-175 | once the quote is claimed, asking again claims nothing, whatever the mint answers |
| GuardedMint.GuardedAgreesWithSource | src/BotWallet.ts:159-179 | when the wallet's one record of the quote is pending, the corrected check and the original give the same outcome |
| GuardedMint.OnlyRecordFound | src/BotWallet.ts:167-168 | with one pending record of the quote, both look-ups find it |
| GuardedMint.ClaimMintFound | src/BotWallet.ts:166-173 | once the record is known, the block is the insert followed by completing that record |
| GuardedMint.GuardedValid | src/BotWallet.ts:159-179 | the corrected check keeps the table constraints |
| GuardedSettle.Forfeit | src/BotWallet.ts:129-135 | the corrected `catch` after the engine has answered: the reserved proofs are spent, other rows stay, the record is failed |
| GuardedSettle.CommitRetires | src/BotWallet.ts:120-126 | a commit that goes through spends every reserved row |
| GuardedSettle.GuardedSendSettle | src/BotWallet.ts:109-135 | the same outcome as the original settlement, and the same store when the engine failed or all succeeded; once the engine answered, no reserved proof is unspent again |
| GuardedSettle.GuardedPaySettle | src/BotWallet.ts:211-246 | the same for `payInvoice` |
| GuardedSettle.SendSettleRevives | src/BotWallet.ts:117-135 | in the original, a commit failure after the engine's send puts every reserved row back to unspent |
| GuardedSettle.PaySettleRevives | src/BotWallet.ts:219-246 | the same for the melt |
| GuardedSettle.GuardedSettleNeverRevives | src/BotWallet.ts:117-135 | with the correction, a commit failure still throws but leaves no reserved row unspent, and the record failed |
| GuardedStores.ReserveUnspent | src/storage/ProofStore.ts:76-83 | the guarded reservation: only listed unspent rows become pending under the transaction; everything else stays |
| GuardedStores.ReleaseReservation | src/storage/ProofStore.ts:92-99 | the guarded release: only rows this transaction reserved go back to unspent |
| GuardedStores.ReserveReleaseRoundTrip | src/storage/ProofStore.ts:76-99 | under a fresh transaction id, release after reserve gives back the ledger, whatever the listed rows' states were |
| GuardedStores.GuardedNeverRevivesSpent | src/storage/ProofStore.ts:76-99 | with the guards, no reservation and release under any ids touches a spent row |
| GuardedStores.MarkPendingRevivesSpent | src/storage/ProofStore.ts:76-99 | as written, reserving a spent proof and rolling back leaves it unspent; guarded, it stays spent |
| GuardedStores.MarkPendingRevivesExample | src/storage/ProofStore.ts:76-99 | a spent proof of 8 comes back into a balance of 0 as written; guarded, the balance stays 0 |
| GuardedStores.ReserveAgreesWithMarkPending | src/storage/ProofStore.ts:76-83 | when every listed row is unspent, the guarded reservation is `markPending` |
| GuardedStores.ReleaseAgreesWithRollback | src/storage/ProofStore.ts:92-99 | after reserving unspent rows, the guarded release is `rollbackPending` |
| GuardedStores.FinishPending | src/storage/TransactionStore.ts:79-104 | the guarded update changes only a pending record with the id, as `updateStatus` would |
| GuardedStores.TerminalStaysTerminal | src/storage/TransactionStore.ts:79-104 | guarded, a finished record stays as it is; as written, it takes the new status |
| GuardedStores.FinishAgreesWithUpdateStatus | src/storage/TransactionStore.ts:79-104 | on a pending record the guarded update is `updateStatus` |
| WalletCli.ParseFlags | src/cli/wallet-cli.ts:4-15 | the flag table and positional list are those of the argument list read step by step |
| WalletCli.ReadStep | src/cli/wallet-cli.ts:8-12 | one step adds or overwrites its flag, except `__proto__`, or appends its positional argument |
| WalletCli.TokensRoundTrip | src/cli/wallet-cli.ts:7-13 | reading loses nothing: the steps spell out the arguments again |
| WalletCli.TokensWellFormed | src/cli/wallet-cli.ts:7-13 | only the last step can be a positional argument that looks like a flag |
| WalletCli.SourceRoundTrip | src/cli/wallet-cli.ts:7-13 | every well-formed step list is what its own arguments read back as |
| WalletCli.ArgumentCount | src/cli/wallet-cli.ts:7-13 | each flag uses two arguments and each positional one |
| WalletCli.LastValueWins | src/cli/wallet-cli.ts:8-9 | a key other than `__proto__` is bound exactly when some flag names it, and to the last such value; `__proto__` is never bound |
| WalletCli.FlagValueVerbatim | src/cli/wallet-cli.ts:8-11 | the argument after a flag is taken as it stands, even when it looks like a flag, and a final `--name` is positional |
| WalletCli.ProtoFlagDropped | src/cli/wallet-cli.ts:5-9 | `--__proto__ x` uses both arguments and binds nothing |
| WalletCli.ParseExample | src/cli/wallet-cli.ts:4-15 | `--mint https://m send 64 --memo` binds `mint` and leaves `send`, `64`, `--memo` positional |
| Config.Pick | src/config.ts:43-45 | the override if given, else the file's value if given, else the default |
| Config.ResolveConfig | src/config.ts:36-47 | that precedence for each of the mint URL, database path and unit |
| Config.Defaults | src/config.ts:4-6 | with no override and no file: the test mint, `./botwallets.db` and `sat` |
| Config.ResolveIdempotent | src/config.ts:36-47 | a resolved configuration given back as overrides resolves to itself, whatever the file |
| Config.FieldsIndependent | src/config.ts:43-45 | changing one field's override does not change the other fields |

## Left out

- JavaScript numbers are modelled as unbounded `int`. Fractional amounts, `NaN` and sums above 2^53 are not represented. In the source `send(NaN)` passes the balance check and selects every proof; the model cannot express it.
- `Schema.Store` keeps `now` as an abstract clock that no operation advances. Nothing keeps it monotone across calls, and it stands for SQLite's `datetime('now')` with its one-second resolution.
- TransactionStore.Ordered: ties on `created_at` are broken by rowid, oldest first. SQLite leaves that order unspecified, so `BotWallet.CheckMintQuote`'s "first record" among several with equal timestamps is a choice of the model.
- TransactionStore.Insert: `metadata` is opaque text. `JSON.stringify` on insert and `JSON.parse` on read are not modelled.
- BotWallet.Send: `engine.encodeToken` is folded into the `split` outcome together with `engine.send`, so a failure of either is one engine failure.
- BotWallet: the Cashu engine (src/cashu/CashuEngine.ts is not part of this model) becomes outcome parameters. Token decoding, proof splitting, minting and melting at the mint are not modelled.
- BotWallet: the operations are `async` in the source. The model is sequential, one call at a time. Interleaved calls on one database are not modelled.
- BotWallet: `generateTxId` is random in the source. The transaction id is a parameter. A collision with an existing id surfaces as the primary-key violation that `TransactionStore.Insert` returns.
- BotWallet.GetInfo: the `new Date().toISOString()` fallback of `getCreatedAt` is a parameter.
- `destroy` closes the database handle and has no effect on the ledger, so it is not modelled.
- Config.ResolveConfig: `loadFileConfig` reads and caches a JSON file. Its result is a parameter, `None` for a missing or unreadable file.
- WalletCli: only `parseFlags` is modelled. `runCli`'s command dispatch and output are not.
- ProofStore.SortedUnspent: the comparator `a.amount - b.amount` is modelled as a stable sort by amount. That matches JavaScript's stable `sort` on integer amounts.
- ProofStore.GetUnspentProofs: the `SELECT` at src/storage/ProofStore.ts:55 has no `ORDER BY`, so SQLite may return the rows in any order. The model returns them in rowid order, and the stable sort by amount keeps that order among equal amounts. Which of several equal-amount proofs `ProofStore.SelectProofsForAmount` takes, and the exact prefix `ProofStore.SelectionIsSortedPrefix` names, are therefore the model's choice; the amounts and the total selected do not depend on it.
- TransactionStore.Query: SQLite rejects an OFFSET without a LIMIT as a syntax error. The model returns `MalformedQuery` for it. A negative LIMIT means no bound and a negative OFFSET means 0, as in SQLite.

## Findings

| source | as written | input that shows it | evidently intended | confidence | as-written member | corrected member |
|---|---|---|---|---|---|---|
| src/BotWallet.ts:162-175 | `checkMintQuote` mints before it looks for the wallet's record, and when no `mint` record carries the quote id it stores nothing but still returns the minted sum | a fresh wallet, a paid quote `q1` it holds no record for, the mint issuing one proof of 64: the call returns 64 and the balance stays 0 | look the record up first, and mint only when there is one to credit | not executed; high that the code does this, medium that it matters (quote ids normally come from `createMintInvoice`) | BotWalletProperties.CheckMintQuoteDropsUnmatchedMint, BotWalletProperties.CheckMintQuoteLosesMintedProofs | GuardedMint.GuardedCheckMintQuote, GuardedMint.GuardedClaimStoresWhatItReports |
| src/BotWallet.ts:166-172 | the record is found among `mint` records of every status, so a completed record is credited again | a paid quote checked twice, the mint issuing proofs both times: the balance rises by both sums | only a pending record can be claimed, so a second check claims nothing | not executed; medium (a real mint refuses to issue twice for one quote) | BotWalletProperties.CheckMintQuoteCreditsTwice | GuardedMint.GuardedClaimIdempotent |
| src/BotWallet.ts:117-135 | one `catch` covers both `engine.send` and the commit, so a commit that fails after the engine has consumed the proofs rolls them back to unspent | `keep` holding a proof whose `C` is already in the table: the commit's INSERT is refused, the call throws, and the consumed proofs are spendable again | once the engine has answered, retire the reserved proofs and fail the record | not executed; medium | BotWalletProperties.SendCommitFailureRevives, GuardedSettle.SendSettleRevives | GuardedSettle.GuardedSendSettle, GuardedSettle.GuardedSettleNeverRevives |
| src/BotWallet.ts:219-246 | the same `catch` around `engine.meltProofs` and its commit | change holding a proof whose `C` is already in the table: the melt has paid the invoice, yet every selected proof is unspent again | retire the reserved proofs once the melt has answered | not executed; medium | BotWalletProperties.PayCommitFailureRevives, GuardedSettle.PaySettleRevives | GuardedSettle.GuardedPaySettle |
| src/storage/ProofStore.ts:76-99 | `markPending` and `rollbackPending` match by id alone, so a spent proof can be reserved and then rolled back to unspent | a spent proof `p` of 8 listed in `markPending(["p"], "tx-2")` then `rollbackPending(["p"])`: wallet `w`'s balance goes from 0 to 8 | reserve only unspent rows and release only this transaction's own reservations | not executed; low (one process never lists a spent proof; needs a second writer) | GuardedStores.MarkPendingRevivesSpent, GuardedStores.MarkPendingRevivesExample | GuardedStores.ReserveUnspent, GuardedStores.ReleaseReservation, GuardedStores.GuardedNeverRevivesSpent |
| src/storage/TransactionStore.ts:79-104 | `updateStatus` matches by id alone, so a completed or failed record can be moved to another status | `updateStatus(id, 'failed')` on a completed record: it becomes failed | a finished record is terminal; update only pending records | not executed; low (each operation closes its own record once) | TransactionStore.UpdateStatusReopens | GuardedStores.FinishPending, GuardedStores.TerminalStaysTerminal |
