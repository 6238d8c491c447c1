# The coin ledger of the merch shop, verified

Employees of a company receive coins when they first sign in, send them to each other and spend them on
merchandise. This Dafny project models the part of the service where that can go wrong: the three requests that run
as multi-statement transactions against a shared PostgreSQL database, the views computed from what they leave
behind, the error values on which conflict handling rests, and the mapper between structs and rows. It proves what
every interleaving of every set of requests keeps, including when statements, connections and commits fail at any
point.

`dafny verify dfyconfig.toml` checks everything.

## How the model is built

- `Schema`, `Failures`: tables, rows, int64 arithmetic with its wrap-around, SQLSTATE codes and the service's errors.
- `Program`: the three requests as programs. A stage and the reply to the current statement determine where the Go
  code goes next: errors that are returned, the error of the upsert that nobody reads, the rollback when a debit
  leaves a negative balance.
- `Store`: the database. A `World` holds every committed state so far, the log of commits, a version for each
  balance row, and the clients with snapshot, own writes and transaction status. Actions (begin, one statement,
  commit, failing commit, rollback) of different clients interleave freely; any statement may fail for outside reasons.
- `History`, `Invariant`: the inductive invariant. Each commit is justified by its own snapshot, and no commit in
  between touched the rows it wrote.
- `Posting`, `Ledger`, `Documents`, `Bounds`: what a completed request has written, and what follows for every
  committed state: the cached balance, no overdraft, unique accounts, conservation, the match between the log and
  the documents, the arithmetic bound.
- `Serial`: a ledger that serves one request at a time with running balances, and the equivalence of the concurrent
  store with it. `Progress`: the converse, a request commits when the serial ledger serves it, and the proof that
  the restriction on identity keys cannot be dropped.
- `Erasure`: a request that does not commit can be taken out of the run.
- `Witnesses`: three concrete runs in which the service falls short.
- `Effects`: what each committed request changed, field by field.
- `Guarantees`: the same properties, and some more, stated over whole runs.
- `DatabaseServer`, `Service`: the store as an object used by many requests at once, and the repositories and use
  cases as methods that issue their statements on it in the order of the Go code. The contract of each statement
  admits any actions of other requests before it.
- `Grouping`, `Views`: grouped history and inventory, the joins, and the info page.
- `ErrorTree`, `LogicErrors`: the wrap graph of errors with `errors.Is` and `errors.As`, the conversion of database
  errors, and the mutable error objects.
- `FieldMapper`: converter registry, struct to row, row to struct.

A history-level lemma takes `History.Valid(cfg, past, log)`, which `Invariant.ReachedInv` gives for every run.

## Assumptions about code outside the repository

- PostgreSQL, REPEATABLE READ, as in section 13.2.2 of the PostgreSQL 16 documentation: a transaction reads its
  snapshot and its own writes; writing a row that was committed after the snapshot fails with 40001, also through
  `ON CONFLICT DO UPDATE`; a second writer of a row waits for the first one to end; after a failure every statement
  fails with 25P02. The snapshot is taken by the first statement, which the model does in `Begin`.
- A unique violation on `account.username` is reported against what is committed at that moment. Foreign keys are
  checked against the transaction's view: accounts and items are never deleted, so a key found there is still valid.
- `SUM` over BIGINT is NUMERIC, so it does not wrap; storing a sum beyond int64 fails with 22003.
- A failing upsert comes back from `Query` itself or only when its rows are read. A statement that the server executes
  and rejects takes the second way; one that the dead transaction or the connection refuses may take either.
- A nested `txManager.Do` joins the outer transaction; its error reaches the outer closure, which returns it.
- `uuid.New` never repeats: an identifier is the number of the request that drew it and the number of the draw.
- A `COMMIT` takes effect and is confirmed, is refused and rolls back, or takes effect without confirmation. The caller
  gets the internal error in the last two cases; every other error of a transaction means that nothing was committed.
- A `ROLLBACK` that fails loses the connection, which rolls back as well; the combined error is no error of the service,
  so the caller gets the internal one.
- A deadlock victim, a timeout and a lost connection are failures that any statement may meet.
- The tables start empty, apart from the catalogue. Catalogue and welcome amount do not change during a run.

## Where the code does other than one might expect

- Identity keys: there is no unique index, so two requests with one key can both commit when they overlap and touch
  no account in common. `Serial.SerialisableIff` says that this is the only way a run fails to be serialisable;
  `Witnesses.OneKeyCommitsTwice` is a run in which it does happen.
- Arithmetic: the bound on recomputed balances needs non-negative quantities, since a negative quantity turns the
  debit into a credit before the quantity is checked. `Witnesses.NegativeQuantityOverflows` is a run and
  `Bounds.UpsertsFitIff` has the exact condition. Such a purchase never commits all the same.
- Price times quantity wraps, and so does the sign flip, so a purchase can be charged less than it costs:
  `Witnesses.WrappedPurchaseCommits` is a run. `Documents.ChargeIsCostIff` has the exact condition for one purchase,
  `Guarantees.CoinsAreConserved`, `Grouping.StatementFromViews` and `Views.PageAddsUp` have it for the equations.
  Conservation of what was charged needs no condition.
- `AddDetails` never adds details to an error whose details are nil, and all predeclared errors have none.
- `StructToDBMap` silently drops a field whose converter yields a value of an unassignable type, while
  `ConvertDBToDomain` reports an error in that case. `FieldMapper.FieldIsDropped` is an input and
  `FieldMapper.RowHasAllColumnsIff` the exact condition for a complete row.

## Model

| member | source | states |
|---|---|---|
| Invariant.StepKeepsInv | internal/infra/db/txmngr/tx_manager.go:11-25 | every begin, statement, commit, failed commit and rollback of any client keeps the invariant: commits are justified by their snapshots, live transactions hold disjoint rows, versions name last writers, the code's position agrees with what it wrote |
| Invariant.ReachedInv | internal/usecase/coin_transfer.go:70-118 | every state of every interleaved run satisfies the invariant |
| Invariant.CommitIsJustified | internal/infra/db/txmngr/tx_manager.go:12-14 | a commit ran to its end against its own snapshot and no commit since wrote a balance row or username it writes |
| Invariant.LineFails | internal/repository/operation.go:142-154 | a failing statement either ends the request or, unread, leads to the read-back of the same balance in a dead transaction |
| Posting.SaveEffect | internal/repository/operation.go:157-202 | insert, upsert and read-back that succeed add exactly the operation and a balance row equal to snapshot sum plus own operations, which fits int64 and is not negative for a debit |
| Posting.SendEffect | internal/usecase/coin_transfer.go:91-117 | a transfer that runs to its end wrote debit, credit, the two mirrored rows and two balance rows, the owner's not negative, and no other row |
| Posting.BuyEffect | internal/usecase/shop_purchase.go:81-95 | a purchase that runs to its end has a positive quantity and wrote one payment, one purchase row and a covered balance, and no other row |
| Posting.SignUpEffect | internal/usecase/auth.go:58-75 | a sign-up that runs to its end wrote one account and, when the amount is positive, one deposit with its balance row |
| Posting.CompletesMeansPosted | internal/usecase/operation.go:45-75 | running the statements of any request to their end against a snapshot has exactly the effect of its kind |
| Ledger.CacheAgreesWithLog | internal/repository/operation.go:133-155 | in every committed state each balance row is the sum of its account's operations and every account with operations has a row, although each upsert summed only its own snapshot |
| Ledger.SnapshotSumIsCurrent | internal/repository/operation.go:133-136 | at commit time an account the transaction wrote still has the sum it had in the transaction's snapshot |
| Ledger.NoOverdraft | internal/usecase/operation.go:49-65 | no committed state of any run has a negative balance, for any prices, quantities and amounts |
| Ledger.WrittenBalancesCovered | internal/usecase/operation.go:51-62 | every balance a completed request writes is non-negative given non-negative balances in its snapshot |
| Ledger.AccountsAreDistinct | migrations/00001_init.sql:5-11 | usernames and account ids are unique in every committed state |
| Ledger.ReferencesHold | migrations/00001_init.sql:49-70 | every operation, transfer and purchase of a committed state refers to accounts that exist in it |
| Serial.SerialisableIff | internal/infra/db/txmngr/tx_manager.go:12-14 | serving the committed requests one at a time in commit order gives the same replies and the same tables if and only if no identity key was used twice |
| Serial.Serialisable | internal/usecase/coin_transfer.go:70-118 | if requests that share a key share an account, the serial replay succeeds and agrees with the committed tables after every single commit |
| Serial.EntryServes | internal/usecase/shop_purchase.go:64-96 | a committed request whose key is free gives, served alone on the state it committed into, the same tables and reply as it gave concurrently |
| Serial.WrittenBalance | internal/repository/operation.go:134-136 | the balance row committed equals the running balance before that commit plus the transaction's own operations |
| Serial.SharersAreApart | internal/repository/coin_transfer.go:76-105 | of two committed requests with one key the later one had its snapshot before the earlier commit, and they wrote no account in common |
| Serial.TransfersWithOneKey | internal/usecase/coin_transfer.go:71-89 | two committed transfers with one key overlapped and touch four distinct accounts, so one owner and key commit at most once |
| Serial.PurchasesWithOneKey | internal/usecase/shop_purchase.go:65-74 | two committed purchases with one key overlapped and were paid by different accounts |
| Serial.KeyIsRecorded | internal/repository/shop_purchase.go:74-103 | once a request with a key has committed, every later snapshot finds the key |
| Progress.CommitsAloneIffServed | internal/usecase/auth.go:56-81 | after any run, while no other request holds a row it would write, a new request can commit if and only if the serial ledger serves it, and then only with that reply and those tables |
| Progress.UnchallengedCommits | internal/repository/operation.go:183-195 | a request that completes against its snapshot, whose rows no later commit wrote and no other live request holds, can run to its commit, whatever other rows are held or were committed since |
| Progress.OneKeyCanCommitTwice | internal/repository/coin_transfer.go:76-105 | two requests with one key that complete on the same tables and write different accounts can both commit when they overlap, and then no serial replay in commit order exists |
| Witnesses.OneKeyCommitsTwice | internal/usecase/coin_transfer.go:71-89 | a run from the empty tables: four sign-ups, then two overlapping transfers with one key, both committed, whose replay fails |
| Progress.ServedCompletes | internal/repository/operation.go:157-202 | whatever the serial ledger serves, the statement list completes on the same tables |
| Guarantees.CommittedStatesAreSound | internal/repository/operation.go:133-155 | over whole runs: cached balances are sums, none is negative, accounts are distinct |
| Guarantees.VersionIsLastPosting | internal/repository/operation.go:167-196 | the version of a balance row is the last commit that added an operation of that account |
| Guarantees.AllOrNothing | internal/usecase/coin_transfer.go:97-124 | whichever statement failed, a request whose commit did not take effect might as well not have run: without its actions the run is still possible and leads to the same committed tables, balance rows included, the same log and versions and the same state of every other request; its key is taken only if another committed request used it |
| Guarantees.SuccessIsCommittedOnce | internal/usecase/coin_transfer.go:119-126 | a request whose commit took effect, and so every one that returned success, is committed exactly once, with the reply it prepared and its full effect |
| Effects.CommitsDoWhatWasAsked | internal/usecase/coin_transfer.go:91-115 | every commit of a run did to the tables, field by field, what its request asked: a transfer moves the amount from an owner who has it to the account of that name and adds two operations and two rows with owner, counterparty, amount and key; a purchase takes the product off the buyer and adds its operation and row; a sign-in finds the account or creates it with the hash and the welcome amount; nothing else changes, and the reply names those rows |
| Effects.TransferEffect | internal/usecase/coin_transfer.go:91-115 | the part of it about transfers, between the two committed states around the commit |
| Effects.PurchaseEffect | internal/usecase/shop_purchase.go:76-93 | the part of it about purchases |
| Effects.SignInEffect | internal/usecase/auth.go:57-75 | the part of it about sign-ins |
| Effects.HashesAreThoseGiven | internal/usecase/auth.go:59-64 | every account of a committed state has the username of an earlier committed sign-in and the password hash that came with it |
| Guarantees.RefusedForAReason | internal/usecase/shop_purchase.go:65-88 | a request that rolls back in a live transaction has the first reason its snapshot gives: a used key, an unknown user or item, a transfer to oneself, a failed hash, or funds below the amount, each with its error |
| Guarantees.AnsweredAsAsked | internal/usecase/coin_transfer.go:82-92 | a request about to commit has prepared rows with the owner, account, amount, quantity and key it was given, for the user or item of the given name |
| Erasure.RunWithout | internal/usecase/operation.go:51-62 | from any state, the actions of a request that never commits can be taken out of a run: everybody else can do the same and sees the same |
| Guarantees.SwallowedConflictSurfaces | internal/repository/operation.go:142-154 | an upsert that meets a newer balance row fails unread; whatever others do next, the read-back fails and the request ends with the concurrency conflict |
| Guarantees.NoLostUpdate | internal/repository/operation.go:183-193 | code past a saved operation, up to the commit and for the welcome deposit too, is in a live transaction that holds operation and matching balance row, and no commit since the snapshot wrote that account |
| Guarantees.NonPositivePurchaseNeverCommits | internal/usecase/shop_purchase.go:81-93 | a purchase of any quantity at or below zero, however the product wraps, never succeeds and leaves no row |
| Guarantees.CoinsAreConserved | internal/usecase/coin_transfer.go:91-105 | all balances together are all deposits minus all charges; with non-negative prices they are the deposits minus price times quantity if and only if no committed purchase has a product beyond 2^63 |
| Guarantees.LogAndDocumentsCorrespond | internal/usecase/coin_transfer.go:91-115 | in every committed state of a run operations and documents match one to one and transfer rows are mirrored |
| Guarantees.AccountsAreWelcomedOnce | internal/usecase/auth.go:56-81 | in every committed state of a run each account has exactly one deposit of the configured amount, or none when it is not positive |
| Documents.ChargeIsCostIff | internal/usecase/shop_purchase.go:83 | the charge stored for a purchase, wrapped twice, is price times quantity exactly when that lies in (-2^63, 2^63] |
| Documents.ChargesAreCostsIff | internal/usecase/shop_purchase.go:83 | with non-negative prices the charges of all committed purchases add up to price times quantity if and only if no product is beyond 2^63 |
| Documents.ChargesOnAreCostsIff | internal/usecase/shop_purchase.go:83 | the same over the purchases of one account |
| Witnesses.WrappedPurchaseCommits | internal/usecase/shop_purchase.go:81-93 | a run from the empty tables: one sign-up, then a committed purchase whose product is 2^64 + 4 and which is charged four coins, after which conservation with price times quantity fails |
| Documents.BalanceIsStatement | internal/repository/operation.go:81-92 | an account's balance is its deposits plus received minus sent minus charged, summed over the document rows |
| Documents.Conservation | internal/usecase/auth.go:69-75 | total of balances equals deposits minus charges after every commit |
| Documents.TransferConserves | internal/usecase/coin_transfer.go:94-105 | a committed transfer leaves the sum of all balances unchanged |
| Documents.LogMatchesDocuments | internal/usecase/shop_purchase.go:81-93 | each operation that is no deposit has exactly one transfer or purchase row with its source id, account, sign and amount, and each row exactly one operation |
| Documents.TransfersMirror | internal/usecase/coin_transfer.go:107-115 | sending and receiving rows pair off with owner and counterparty swapped and equal amounts |
| Documents.MirrorSums | internal/repository/coin_transfer.go:137-180 | what A sent to B over mirrored rows equals what B received from A |
| Documents.OneWelcomeEach | internal/usecase/auth.go:69-75 | each account has exactly one deposit of the configured amount when that is positive, none otherwise |
| Bounds.UpsertsFitIff | internal/repository/operation.go:133-136 | with deposits within int64, non-negative prices and no wrapped product, the sum an upsert computes fits int64, even mid-transaction and on the credit side, for every sign-up, transfer and purchase of a non-negative quantity, and for a negative quantity exactly when balance minus product does not exceed int64; the negated amounts are exact, but for the lowest product |
| Bounds.PurchaseUpsertFitsIff | internal/repository/operation.go:87-89 | for a purchase whose product does not wrap, whatever the deposits and prices, the recomputed balance fits exactly when balance minus price times quantity is at most the int64 maximum or the product is the int64 minimum |
| Witnesses.NegativeQuantityOverflows | internal/usecase/shop_purchase.go:83 | a run from the empty tables: one sign-up, then a purchase of a negative quantity that neither wraps nor is rejected before its upsert, where the recomputed balance does not fit |
| Bounds.BalancesWithinTotal | internal/usecase/operation.go:49-65 | any two balances together are at most the total of all balances |
| Bounds.TotalWithinDeposits | internal/usecase/auth.go:69-75 | with non-negative prices and no wrapped product all balances together never exceed the deposits |
| DatabaseServer.Server.Statement | internal/infra/db/txmngr/tx_manager.go:11-25 | one statement after any actions of others: the code moves as its reply says, a reply that is no error means the transaction is alive and has exactly the statement's effect, and without a fault the reply is what the store, or a dead transaction, gives |
| DatabaseServer.Server.Commit | internal/usecase/coin_transfer.go:118-126 | success is reported only for a request in the log; otherwise the internal error is, and the request is in the log exactly when its commit took effect without confirmation |
| Service.Create | internal/repository/operation.go:157-202 | success means a live transaction that holds the operation and its balance row, and the result is that balance; an error means that the transaction is dead and the request on its way to a rollback with that error |
| Service.UpdateBalanceByAccountID | internal/repository/operation.go:133-155 | an error ends the request; nil lets it go on to the read-back, whether or not the upsert took effect |
| Service.SaveOperation | internal/usecase/operation.go:45-75 | in a live transaction that holds operation and balance row it returns the not-enough-funds error when a debit leaves that balance negative and the balance otherwise; every other error means that the transaction is dead |
| Service.MakeTransferByUsername | internal/usecase/coin_transfer.go:61-127 | a committed success returns the pair of rows with the given owner, amount and key for the user of that name; a refusal returns the error the snapshot calls for, or the converted error of its last statement; the internal error of a lost end is the only other one; a non-positive amount issues no statement |
| Service.MakePurchase | internal/usecase/shop_purchase.go:60-105 | a committed success returns the row with the given buyer, quantity and key for the item of that name; a refusal returns the error the snapshot calls for, not enough funds included, or the converted error of its last statement; a non-positive quantity is always an error and never committed |
| Service.SignInOrSignUp | internal/usecase/auth.go:52-95 | the account has the given username and was there before or has the given hash; then the password decides; a refusal returns its own error, and the request is in the log exactly when its commit took effect |
| Service.FindItemByUsername | internal/repository/account.go:65-96 | returns what the transaction's view holds under that username, the no-rows error only when it holds nothing, and otherwise the converted error of the failed statement; the code takes the branch that follows |
| Service.FindIdentity | internal/repository/coin_transfer.go:76-105 | says whether the key is used in the table of the request's kind, in the transaction's view, or gives the converted error of the failed statement; the code takes the branch that follows |
| Service.FindItemByName | internal/repository/shop_item.go:93-124 | returns the catalogue item of that name, the no-rows error only when there is none, and otherwise the converted error of the failed statement |
| Service.GetBalanceByAccountID | internal/repository/operation.go:98-130 | success means that the transaction is alive and gives the balance in its own view, zero without a row, and whether there is one |
| Service.Insert | internal/repository/coin_transfer.go:107-130 | success means that the transaction is alive and holds exactly the statement's effect; an error ends the request with the converted error |
| Service.Finish | internal/usecase/operation.go:51-64 | a failure of the closure is passed on after a rollback that is confirmed; the internal error is returned only for a rollback or commit that failed or a commit without confirmation, and success only for a commit |
| Grouping.GroupRowsIsGrouped | internal/repository/coin_transfer.go:137-180 | grouping yields each key once, exactly the keys of the rows, each with the sum of its rows |
| Grouping.GroupingKeepsWorth | internal/repository/shop_purchase.go:135-178 | for any weight of a key, weighted group totals add up to the weighted rows: grouping loses nothing |
| Grouping.StatementFromViews | internal/repository/shop_purchase.go:135-178 | at one committed state, with non-negative prices, the balance is deposits plus grouped received minus grouped sent minus grouped quantities times price if and only if no purchase of this account has a product beyond 2^63 |
| Grouping.MirroredViews | internal/repository/coin_transfer.go:137-180 | A's group for B among coins sent exists exactly when B's group for A among coins received does, with the same total |
| Views.CounterpartiesExist | migrations/00001_init.sql:62-70 | every counterparty of a grouped history is an account at that commit and at every later one |
| Views.InventoryItemsExist | migrations/00001_init.sql:49-56 | every item of a grouped inventory is in the catalogue |
| Views.GetAggrCoinHistoryByAccountID | internal/repository/coin_transfer.go:137-180 | the scanned rows are the grouping of the transfers committed at the moment of the query, with sums that fit int64; an error means that the query failed or that such a sum does not fit |
| Views.AggrInventoryByAccountID | internal/repository/shop_purchase.go:135-178 | the scanned rows are the grouping of the account's purchases committed at the moment of the query, with sums that fit int64; an error means that the query failed or that such a sum does not fit |
| Views.FindItemsByIDs | internal/repository/account.go:98-139 | the map holds exactly the requested accounts that exist, each under its id; an error means that the query failed |
| Views.FindShopItemsByIDs | internal/repository/shop_item.go:126-167 | the map holds exactly the requested items of the catalogue, each under its id; an error means that the query failed |
| Views.GetAggrCoinHistory | internal/usecase/coin_transfer.go:129-158 | although history and accounts are read at different commits, every entry has its account, in the order and number of the groups; an error means that a read failed or that a sum of that history does not fit int64 |
| Views.GetInventory | internal/usecase/shop_purchase.go:107-137 | every inventory entry has its item, in the order and number of the groups; an error means that a read failed or that a sum of that inventory does not fit int64 |
| Views.InfoHandler | internal/delivery/http/controller/info.go:36-102 | the four parts are each of some committed state, in order of time, and every name is that of the entry's account or item; an error means that a read failed or that a sum committed meanwhile does not fit int64 |
| Views.PageAddsUp | internal/delivery/http/controller/info.go:51-99 | when all parts were read at one commit and prices are non-negative, the coins on the page are the deposits plus its received list minus its sent list minus its inventory list at the prices of the named items, if and only if no purchase of this account has a product beyond 2^63 |
| ErrorTree.LockedNeverChanges | pkg/e/error.go:68-71 | no sequence of calls on any error changes a locked one |
| ErrorTree.OrderIsKept | pkg/e/error.go:34-50 | wrapping older errors only keeps the wrap graph ordered by allocation |
| ErrorTree.PathsGoDown | pkg/e/error.go:43-54 | along any unwrapping path the errors get strictly older, annotations aside, so there is no cycle |
| ErrorTree.IsEqualsReachable | pkg/e/error.go:52-66 | the search by Is and Unwrap ends and holds of exactly the errors that unwrapping reaches |
| ErrorTree.AsPgIff | pkg/e/error_helpers.go:10-14 | errors.As finds a database error exactly when one can be reached by unwrapping, and what it finds can be |
| ErrorTree.AsPgIsFirst | pkg/e/error_helpers.go:22-24 | it finds the first one in the order of the wrapped errors, depth first |
| ErrorTree.DeclarationsAreInPlace | pkg/e/const.go:3-25 | the declared errors are locked and each store error wraps its base only |
| ErrorTree.DeclaredBases | pkg/e/const.go:3-13 | each base error has its code and message, is locked and wraps nothing |
| ErrorTree.DeclaredStoreErrors | pkg/e/const.go:15-24 | each store error has the code and message of its base, is locked and wraps it alone |
| ErrorTree.PredeclaredStays | pkg/e/const.go:15-24 | the predeclared errors stay as declared through every sequence of calls |
| ErrorTree.ConversionIs | pkg/e/error_helpers.go:18-46 | a converted database error is its store error, that error's base, the original, whatever that was, and no other predeclared error; an unrecognised one comes back as it is |
| ErrorTree.ConflictIsRecognised | pkg/e/error_helpers.go:10-16 | for every error, bare or wrapped, conversion neither hides nor invents the concurrency conflict (40001, 25P02 or the conflict error below it), and the result is not-found exactly when the error was or is the missing row |
| ErrorTree.BuiltAsPg | pkg/e/error_helpers.go:18-46 | errors.As finds in a converted error exactly the database error it finds in the original, however deeply wrapped |
| ErrorTree.CheckIsSaysConflict | pkg/e/error_helpers.go:10-16 | before and after conversion the check holds exactly when the first database error below has code 40001 or 25P02 or the conflict error can be reached |
| ErrorTree.CodesConvert | pkg/e/error_helpers.go:23-43 | which store error, code, message and data the conversion gives for each SQLSTATE of the first database error below, and that an unknown one is an internal error |
| ErrorTree.NoRowsConverts | pkg/e/error_helpers.go:18-21 | an error from which the missing row can be reached becomes the not-found error of the store, whatever else it wraps |
| ErrorTree.OthersComeBack | pkg/e/error_helpers.go:44-46 | an error from which neither can be reached comes back as it is |
| ErrorTree.FailuresAreConversions | internal/usecase/coin_transfer.go:119-124 | the errors the requests report are those the conversion builds from, and a lost connection becomes the internal error |
| LogicErrors.LogicError.Wrap | pkg/e/error.go:43-50 | appends to the wrapped errors unless locked, and changes nothing else |
| LogicErrors.LogicError.Lock | pkg/e/error.go:68-71 | the error is locked from now on and otherwise unchanged |
| LogicErrors.LogicError.SetMessage | pkg/e/error.go:85-91 | replaces the message of an unlocked error, and changes nothing else |
| LogicErrors.LogicError.SetData | pkg/e/error.go:111-118 | replaces the data of an unlocked error, and changes nothing else |
| LogicErrors.Allocated.Call | pkg/e/error.go:43-118 | a call on one error leaves every other error as it was |
| LogicErrors.Allocated.PerformAll | pkg/e/error.go:34-118 | any sequence of calls on the objects does what the pure steps say, and a locked object stays as it is |
| LogicErrors.LogicError.AddDetails | pkg/e/error.go:93-105 | adds details only to an unlocked error that has some |
| LogicErrors.LogicError.Is | pkg/e/error.go:56-66 | true exactly for the error itself and those it wraps directly |
| LogicErrors.Allocated.NewErrorFrom | pkg/e/error.go:34-41 | a new unlocked error with the parent's code, message and details and no data that wraps the parent alone, all others unchanged |
| FieldMapper.KeysAreUnambiguous | pkg/dbhelper/helpers.go:15-17 | two pairs of types share a converter key only when they are the same pair |
| FieldMapper.RegisteredIsFound | pkg/dbhelper/helpers.go:19-33 | after registering, both converters are found under their pair of types, and for every other pair what was found before |
| FieldMapper.ConvertersStayPaired | pkg/dbhelper/helpers.go:19-26 | after any registrations of mutually inverse pairs, a converter that is found has its inverse registered beside it |
| FieldMapper.Mapper.RegisterBidirectionalConverter | pkg/dbhelper/helpers.go:19-26 | both directions are replaced together and no other key changes |
| FieldMapper.Mapper.StructToDBMap | pkg/dbhelper/helpers.go:113-175 | the loop builds the row of the field steps and stops at the first error or panic with no row; the keys of a row are the tags, or names where there is no tag, of exactly the fields that can be mapped; arguments that are no structs are an error |
| FieldMapper.Mapper.ConvertDBToDomain | pkg/dbhelper/helpers.go:45-111 | the loop stores what the field steps yield, also when source and destination are one struct; fields before an error stay stored |
| FieldMapper.Mapper.ExtractDBFields | pkg/dbhelper/helpers.go:177-196 | for every field in order its tag, or its name when there is no tag; nothing for an argument that is no struct |
| FieldMapper.RowOfSteps | pkg/dbhelper/helpers.go:134-174 | a completed row has exactly the columns of the fields that are put, each with its value |
| FieldMapper.StructOfSteps | pkg/dbhelper/helpers.go:62-110 | a filling that completes stores in each field what is put there and touches no other |
| FieldMapper.RowFieldByField | pkg/dbhelper/helpers.go:134-174 | in a completed row the column of a field holds the registered converter's value, the value itself where the types are assignable, or the converted value; it is absent when the converter's value does not fit, when nothing applies, or when the source has no such field |
| FieldMapper.MappingFailsIff | pkg/dbhelper/helpers.go:150-154 | the mapping fails exactly when a registered converter fails or panics on an exported field before which all fields went through |
| FieldMapper.StructFieldByField | pkg/dbhelper/helpers.go:62-105 | in a completed struct a field holds the registered converter's value, the value itself or the converted value; unexported and unnamed fields keep what they held |
| FieldMapper.FillingFailsIff | pkg/dbhelper/helpers.go:84-107 | the filling fails exactly when, before anything else stops it, a converter fails or gives a value that does not fit, or there is none and the types are neither assignable nor convertible |
| FieldMapper.StoppedKeepsEarlier | pkg/dbhelper/helpers.go:62-110 | a filling that stops leaves what the fields before stored |
| FieldMapper.RowHasAllColumnsIff | pkg/dbhelper/helpers.go:113-196 | the row has exactly the columns ExtractDBFields lists if and only if for every schema field the source has an exported field of that name whose registered converter gives a value of a fitting type, or, without converter, whose type is assignable or convertible without panic |
| FieldMapper.FieldIsDropped | pkg/dbhelper/helpers.go:150-161 | an input whose converter gives a value of another type: the row is completed without the column, and the way back is an error |
| FieldMapper.RoundTrip | pkg/dbhelper/helpers.go:45-196 | writing a struct to a row and reading it back restores every field the schema names and leaves the others, for fields of one type without converter or of two types with mutually inverse converters |

## Left out

- HTTP routing, middleware, validation, logging, configuration, wiring, the migration runner and the load test: no hard property.
- Password hashing and tokens: hashing may fail and yields an opaque string, comparing is an opaque predicate after the transaction.
- Timestamps, printed messages and HTTP status codes.
- SQL text, query building, connections and scanning: a statement is its effect on tables.
- Views.InfoHandler: claims nothing about consistency between the parts of a page under concurrent commits, because they are separate statements outside a transaction; the equation is `Views.PageAddsUp`, at one commit.
- Bounds.UpsertsFitIff: says nothing of wrapped products; what is then charged is still conserved, see `Documents.Conservation`.
- A per-account history or inventory total beyond int64: the query then ends in an error, without a bound on when.
- At-most-once for one key across owners with disjoint accounts: the code does not give it.
- Mapping of operations back from rows (`dbToDomain`): it has no caller.
- Reflection: types are names, unique per type, with assignable and convertible as relations. Fields promoted from embedded structs, blank fields and nil pointers to structs are not modelled.
- FieldMapper.RoundTrip: leaves out pairs of types that Go converts without a converter, since such a conversion may lose information.
- ErrorTree.OrderIsKept: errors are numbered in the order of allocation, and wrapping an error newer than the receiver, which no code of the service does, is excluded.
- Errors that wrap several others without being a `LogicError` (`errors.Join`, several `%w`): the service makes none; a foreign error wraps nothing and an annotated one a single error.
- The sharing of spare capacity between details slices: all predeclared errors have nil details, and so has everything derived from them.
- Concurrent access to the converter registry: it is guarded by a lock and read after start-up.
