/** The repositories and use cases, statement by statement, against a server shared with other requests. */
module Service {
  import opened Schema
  import opened Failures
  import opened Program
  import opened Store
  import opened History
  import opened Posting
  import opened Invariant
  import opened DatabaseServer
  import Guarantees

  /** The lines that come next are these. */
  predicate Upcoming(stage: Stage, lines: seq<Line>) {
    stage.Writing? && stage.pos + |lines| <= |stage.lines| && stage.lines[stage.pos..stage.pos + |lines|] == lines
  }

  /** Where the request is n lines later, when none of them makes it give up. */
  function Ahead(stage: Stage, n: nat): Stage
    requires stage.Writing?
  {
    if stage.pos + n == |stage.lines| then Leaving(Success(stage.reply)) else stage.(pos := stage.pos + n)
  }

  // ----- internal/repository/account.go, shop_item.go -----

  method FindItemByUsername(db: Server, c: nat, username: string) returns (r: Result<Account>)
    requires db.Valid() && c in db.world.clients && db.world.clients[c].stage == FindByUsername
    requires !db.world.clients[c].req.Buy?
    requires username == if db.world.clients[c].req.SignIn? then db.world.clients[c].req.username
                         else db.world.clients[c].req.target
    modifies db
    ensures db.Valid() && old(db.trace) <= db.trace
    ensures r.Ok? ==> r.value.username == username
                      && db.At(c, old(db.world.clients[c].req),
                               AfterUsername(db.cfg, c, old(db.world.clients[c].req), AccountRow(Some(r.value))))
    ensures r.Err? && r.error == From(StoreNoRows) ==>
              db.At(c, old(db.world.clients[c].req),
                    AfterUsername(db.cfg, c, old(db.world.clients[c].req), AccountRow(None)))
    ensures r.Err? && r.error != From(StoreNoRows) ==> db.At(c, old(db.world.clients[c].req), Abandon(r.error))
    ensures r.Ok? || r.error == From(StoreNoRows) ==>
              c in db.world.clients
              && FindAccount(db.View(c).accounts, username) == (if r.Ok? then Some(r.value) else None)
              && db.world.clients[c].tx.status.Active?
    ensures r.Err? && r.error != From(StoreNoRows) ==> !db.world.clients[c].tx.status.Active? && db.Heard(c, r.error)
  {
    var response := db.Statement(c, SelectAccount(username));
    match response
    case Failed(error, _) => r := Err(FailureFor(error));
    case AccountRow(found) => r := if found.None? then Err(From(StoreNoRows)) else Ok(found.value);
  }

  method FindItemByName(db: Server, c: nat, name: string) returns (r: Result<ShopItem>)
    requires db.Valid() && c in db.world.clients && db.world.clients[c].stage == FindByItemName
    requires db.world.clients[c].req.Buy? && db.world.clients[c].req.item == name
    modifies db
    ensures db.Valid() && old(db.trace) <= db.trace
    ensures r.Ok? ==> Some(r.value) == FindItem(db.cfg.items, name)
                      && db.At(c, old(db.world.clients[c].req),
                               AfterItem(c, old(db.world.clients[c].req), ItemRow(Some(r.value))))
    ensures r.Err? ==> db.At(c, old(db.world.clients[c].req), Abandon(r.error))
    ensures r.Err? && r.error == From(StoreNoRows) ==> FindItem(db.cfg.items, name).None?
    ensures r.Ok? || r.error == From(StoreNoRows) <==> db.world.clients[c].tx.status.Active?
    ensures r.Err? && r.error != From(StoreNoRows) ==> db.Heard(c, r.error)
  {
    var response := db.Statement(c, SelectItem(name));
    match response
    case Failed(error, _) => r := Err(FailureFor(error));
    case ItemRow(found) => r := if found.None? then Err(From(StoreNoRows)) else Ok(found.value);
  }

  /** SELECT COUNT(*) on the identity key, in coin_transfer or in shop_purchase. */
  method FindIdentity(db: Server, c: nat, key: Id) returns (r: Result<bool>)
    requires db.Valid() && c in db.world.clients && db.world.clients[c].stage == CheckKey
    requires !db.world.clients[c].req.SignIn? && db.world.clients[c].req.key == Some(key)
    modifies db
    ensures db.Valid() && old(db.trace) <= db.trace
    ensures r.Ok? ==> db.At(c, old(db.world.clients[c].req), AfterKey(old(db.world.clients[c].req), Count(r.value)))
    ensures r.Err? ==> db.At(c, old(db.world.clients[c].req), Abandon(r.error))
    ensures r.Ok? ==>
              r.value == if old(db.world.clients[c].req.SendCoins?) then HasTransferKey(db.View(c).transfers, key)
                         else HasPurchaseKey(db.View(c).purchases, key)
    ensures r.Ok? <==> db.world.clients[c].tx.status.Active?
    ensures r.Err? ==> db.Heard(c, r.error)
  {
    var stmt := if db.world.clients[c].req.SendCoins? then CountTransferKey(key) else CountPurchaseKey(key);
    var response := db.Statement(c, stmt);
    match response
    case Failed(error, _) => r := Err(FailureFor(error));
    case Count(found) => r := Ok(found);
  }

  /** An INSERT whose error is read: account, coin_transfer or shop_purchase row. */
  method Insert(db: Server, c: nat, stmt: Stmt) returns (r: Result<()>)
    requires stmt.InsertAccount? || stmt.InsertOperation? || stmt.InsertTransfer? || stmt.InsertPurchase?
    requires db.Valid() && c in db.world.clients && Upcoming(db.world.clients[c].stage, [Line(stmt, false)])
    modifies db
    ensures db.Valid() && old(db.trace) <= db.trace
    ensures r.Ok? ==> db.At(c, old(db.world.clients[c].req), Ahead(old(db.world.clients[c].stage), 1))
    ensures r.Err? ==> db.At(c, old(db.world.clients[c].req), Abandon(r.error))
    ensures r.Err? ==> r.error.From? && !db.world.clients[c].tx.status.Active? && db.Heard(c, r.error)
    ensures r.Ok? ==>
              && db.world.clients[c].tx.status.Active?
              && Execute(db.cfg, Store.At(db.world.past, db.world.clients[c].tx.began),
                         old(db.world.clients[c].tx.writes), stmt)
                 == Fine(db.world.clients[c].tx.writes, Done)
  {
    assert db.world.clients[c].stage.lines[db.world.clients[c].stage.pos] == Line(stmt, false);
    var response := db.Statement(c, stmt);
    match response
    case Failed(error, _) => r := Err(FailureFor(error));
    case Done => r := Ok(());
  }

  // ----- internal/repository/operation.go -----

  /**
   The rows of the upsert are closed without being read: an error of the server is not reported here. Only an
   error of the call itself comes back.
   */
  method UpdateBalanceByAccountID(db: Server, c: nat, id: Id) returns (r: Result<()>)
    requires db.Valid() && c in db.world.clients
    requires Upcoming(db.world.clients[c].stage, [Line(UpsertBalance(id), false)])
    modifies db
    ensures db.Valid() && old(db.trace) <= db.trace
    ensures r.Ok? ==> db.At(c, old(db.world.clients[c].req), Ahead(old(db.world.clients[c].stage), 1))
    ensures r.Err? ==> db.At(c, old(db.world.clients[c].req), Abandon(r.error))
    ensures r.Err? ==> r.error.From? && !db.world.clients[c].tx.status.Active? && db.Heard(c, r.error)
  {
    assert db.world.clients[c].stage.lines[db.world.clients[c].stage.pos] == Line(UpsertBalance(id), false);
    var response := db.Statement(c, UpsertBalance(id));
    if response.Failed? && response.atOnce {
      return Err(FailureFor(response.error));
    }
    return Ok(());
  }

  /**
   The balance as the transaction sees it, and whether there is a row; zero without one. The request gives up on a
   guarded negative one.
   */
  method GetBalanceByAccountID(db: Server, c: nat, id: Id, guarded: bool)
    returns (r: Result<int64>, found: bool)
    requires db.Valid() && c in db.world.clients
    requires Upcoming(db.world.clients[c].stage, [Line(SelectBalance(id), guarded)])
    modifies db
    ensures db.Valid() && old(db.trace) <= db.trace
    ensures r.Ok? ==> db.At(c, old(db.world.clients[c].req),
                            if guarded && r.value < 0 then Abandon(NotEnoughFunds)
                            else Ahead(old(db.world.clients[c].stage), 1))
    ensures r.Err? ==> db.At(c, old(db.world.clients[c].req), Abandon(r.error))
    ensures r.Err? ==> r.error.From? && !db.world.clients[c].tx.status.Active? && db.Heard(c, r.error)
    ensures r.Ok? ==>
              && old(db.world.clients[c].tx.status.Active?) && db.world.clients[c].tx.status.Active?
              && db.world.clients[c].tx.began == old(db.world.clients[c].tx.began) < |db.world.past|
              && db.world.clients[c].tx.writes == old(db.world.clients[c].tx.writes)
              && r.value == BalanceOf(db.View(c), id)
    ensures found <==> r.Ok? && id in db.View(c).balances
  {
    assert db.world.clients[c].stage.lines[db.world.clients[c].stage.pos] == Line(SelectBalance(id), guarded);
    var response := db.Statement(c, SelectBalance(id));
    match response
    case Failed(error, _) => r, found := Err(FailureFor(error)), false;
    case BalanceRow(balance, hasRow) => r, found := Ok(balance), hasRow;
  }

  lemma InsertAndUpsertEffect(cfg: Config, snapshot: Tables, lines: seq<Line>, n: nat, operation: Operation)
    requires n + 2 <= |lines| && lines[n].stmt == InsertOperation(operation)
    requires lines[n + 1].stmt == UpsertBalance(operation.account)
    requires RunLines(cfg, snapshot, lines, n + 2).Some?
    ensures operation in RunLines(cfg, snapshot, lines, n + 2).value.operations
    ensures operation.account in RunLines(cfg, snapshot, lines, n + 2).value.balances
  {
    EarlierLinesSucceed(cfg, snapshot, lines, n, n + 2);
    EarlierLinesSucceed(cfg, snapshot, lines, n + 1, n + 2);
    var before := RunLines(cfg, snapshot, lines, n).value;
    assert RunLines(cfg, snapshot, lines, n + 1).value.operations == before.operations + [operation];
  }

  /** A live transaction past an upsert line holds the balance row and the operation before it. */
  lemma UpsertTookEffect(cfg: Config, acts: seq<Action>, w: World, c: nat, operation: Operation)
    requires Reached(cfg, acts, w) && c in w.clients && w.clients[c].tx.status.Active? && w.clients[c].stage.Writing?
    requires var Writing(lines, pos, _) := w.clients[c].stage;
             2 <= pos < |lines| && lines[pos - 2..pos + 1] == SaveLines(operation)
    ensures operation in w.clients[c].tx.writes.operations
    ensures operation.account in w.clients[c].tx.writes.balances
  {
    hide RunLines, LocksOk, LogAgrees, Apart, VersionsOk, History.Valid;
    ReachedInv(cfg, acts, w);
    var Client(_, Writing(lines, pos, _), tx) := w.clients[c];
    assert ClientOk(cfg, w.past, w.log, c, w.clients[c]);
    var three := SaveLines(operation);
    assert lines[pos - 2] == three[0] && lines[pos - 1] == three[1];
    InsertAndUpsertEffect(cfg, Store.At(w.past, tx.began), lines, pos - 2, operation);
  }

  /**
   Insert the operation, recompute the balance row, read it back. Success means that the transaction is alive
   and holds both rows, and that the result is the balance it wrote.
   */
  method Create(db: Server, c: nat, operation: Operation) returns (r: Result<int64>)
    requires db.Valid() && c in db.world.clients && Upcoming(db.world.clients[c].stage, SaveLines(operation))
    modifies db
    ensures db.Valid() && old(db.trace) <= db.trace
    ensures r.Ok? ==> db.At(c, old(db.world.clients[c].req),
                            if operation.kind.Decrease? && r.value < 0 then Abandon(NotEnoughFunds)
                            else Ahead(old(db.world.clients[c].stage), 3))
    ensures r.Ok? ==>
              && db.world.clients[c].tx.status.Active?
              && operation in db.world.clients[c].tx.writes.operations
              && operation.account in db.world.clients[c].tx.writes.balances
              && r.value == db.world.clients[c].tx.writes.balances[operation.account]
    ensures r.Err? ==> db.At(c, old(db.world.clients[c].req), Abandon(r.error))
    ensures r.Err? ==> r.error.From? && !db.world.clients[c].tx.status.Active? && db.Heard(c, r.error)
  {
    ghost var stage := db.world.clients[c].stage;
    ghost var three := SaveLines(operation);
    assert stage.lines[stage.pos] == three[0] && stage.lines[stage.pos + 1] == three[1];
    assert stage.lines[stage.pos + 2] == three[2];
    var inserted := Insert(db, c, InsertOperation(operation));
    if inserted.Err? { return Err(inserted.error); }
    // of two concurrent transactions that get here for one account, one fails; it is not told yet
    var updated := UpdateBalanceByAccountID(db, c, operation.account);
    if updated.Err? { return Err(updated.error); }
    // the transaction that failed is told here
    ghost var before := db.world;
    ghost var trace := db.trace;
    var balance, _ := GetBalanceByAccountID(db, c, operation.account, operation.kind.Decrease?);
    r := balance;
    if r.Ok? {
      UpsertTookEffect(db.cfg, trace, before, c, operation);
    }
  }

  // ----- internal/usecase/operation.go -----

  /** A debit is rolled back by force when the balance it leaves is negative; a credit is simply saved. */
  method SaveOperation(db: Server, c: nat, operation: Operation) returns (r: Result<int64>)
    requires db.Valid() && c in db.world.clients && Upcoming(db.world.clients[c].stage, SaveLines(operation))
    modifies db
    ensures db.Valid() && old(db.trace) <= db.trace
    ensures r.Ok? ==> db.At(c, old(db.world.clients[c].req), Ahead(old(db.world.clients[c].stage), 3))
    ensures r.Err? ==> db.At(c, old(db.world.clients[c].req), Abandon(r.error))
    ensures r.Ok? || r.error == NotEnoughFunds <==> db.world.clients[c].tx.status.Active?
    ensures r.Err? && r.error != NotEnoughFunds ==> db.Heard(c, r.error)
    ensures db.world.clients[c].tx.status.Active? ==>
              && operation in db.world.clients[c].tx.writes.operations
              && operation.account in db.world.clients[c].tx.writes.balances
              && var balance := db.world.clients[c].tx.writes.balances[operation.account];
              r == if operation.kind.Decrease? && balance < 0 then Err(NotEnoughFunds) else Ok(balance)
  {
    match operation.kind
    case Decrease =>
      r := Create(db, c, operation);
      if r.Ok? && r.value < 0 { r := Err(NotEnoughFunds); }
    case Increase =>
      r := Create(db, c, operation);
  }

  // ----- the transaction around a use case -----

  /** What the transaction manager does with the closure's result: commit, or roll back and pass the error on. */
  method Finish(db: Server, c: nat, failure: Option<Failure>) returns (end: Option<Failure>)
    requires db.Valid() && c in db.world.clients && db.world.clients[c].stage.Leaving?
    requires match failure
             case None => db.world.clients[c].stage.outcome.Success?
             case Some(error) => db.world.clients[c].stage == Abandon(error)
    modifies db
    ensures db.Valid() && old(db.trace) <= db.trace
    ensures c in db.world.clients && db.world.clients[c].req == old(db.world.clients[c].req)
    ensures db.world.clients[c].stage.Ended? && db.world.clients[c].tx == old(db.world.clients[c].tx)
    ensures db.Snapshot(c) == old(db.Snapshot(c))
    ensures c in old(db.heard) ==> c in db.heard && db.heard[c] == old(db.heard[c])
    ensures match db.world.clients[c].stage.outcome
            case Success(reply) => failure.None? && end.None? && reply == old(db.world.clients[c].stage.outcome.reply)
            case Refused(f) =>
              && end == Some(f) && |db.trace| > 0
              && (match db.trace[|db.trace| - 1]
                  case Rollback(d, done) =>
                    d == c && failure.Some? && (if done then end == failure else f == From(Internal))
                  case CommitFails(d) => d == c && failure.None? && f == From(Internal)
                  case _ => false)
            case Unconfirmed(_) => failure.None? && end == Some(From(Internal))
    ensures Landed(db.world.clients[c].stage) <==> exists i :: 0 <= i < |db.world.log| && db.world.log[i].client == c
  {
    hide StageOk, LocksOk, RunLines;
    ghost var before, trace := db.world, db.trace;
    if failure.Some? {
      var done := db.Rollback(c);
      end := if done then failure else Some(From(Internal));
    } else {
      var confirmed := db.Commit(c);
      end := if confirmed then None else Some(From(Internal));
    }
    CommittedGrows(db.cfg, trace, db.trace, before, db.world);
    ReachedInv(db.cfg, trace, before);
    assert ClientOk(db.cfg, before.past, before.log, c, before.clients[c]);
  }

  /** What is known about the end of request c before it is committed or rolled back. */
  lemma ExplainEnd(db: Server, c: nat)
    requires db.Valid() && c in db.world.clients && db.world.clients[c].stage.Leaving?
    ensures match db.world.clients[c].stage.outcome
            case Success(reply) => Answer(db.cfg, db.Snapshot(c), db.world.clients[c].req, reply)
            case Refused(f) =>
              db.world.clients[c].tx.status.Active? ==> Refusal(db.cfg, db.Snapshot(c), db.world.clients[c].req, f)
            case Unconfirmed(_) => true
  {
    var outcome := db.world.clients[c].stage.outcome;
    if outcome.Success? {
      Guarantees.AnsweredAsAsked(db.cfg, db.trace, db.world, c);
    } else if outcome.Refused? && db.world.clients[c].tx.status.Active? {
      Guarantees.RefusedForAReason(db.cfg, db.trace, db.world, c);
    }
  }

  /** Why request c was refused: its snapshot says so, or its last statement failed, or the database lost its end. */
  ghost predicate Explained(db: Server, c: nat, f: Failure)
    requires c in db.world.clients
    reads db
  {
    && |db.trace| > 0
    && match db.trace[|db.trace| - 1]
       case Rollback(d, done) =>
         && d == c
         && (if !done then f == From(Internal)
             else if db.world.clients[c].tx.status.Active? then
               Refusal(db.cfg, db.Snapshot(c), db.world.clients[c].req, f)
             else db.Heard(c, f))
       case CommitFails(d) => d == c && f == From(Internal)
       case _ => false
  }

  // ----- internal/usecase/coin_transfer.go -----

  lemma SendLinesAre(c: nat, req: Request, target: Id)
    requires req.SendCoins?
    ensures var lines := SendLines(c, req, target);
            && |lines| == 8
            && lines[0..3] == SaveLines(Debit(c, req)) && lines[3..6] == SaveLines(Credit(c, req, target))
            && lines[6..7] == [Line(InsertTransfer(SendingRow(c, req, target)), false)]
            && lines[7..8] == [Line(InsertTransfer(ReceivingRow(c, req, target)), false)]
  {
  }

  /** The writing half of the closure: two operations, then the two mirrored rows. */
  method TransferWrites(db: Server, c: nat, ghost req: Request, account: Account, owner: Id, amount: int64,
                        key: Option<Id>)
    returns (r: Result<(CoinTransfer, CoinTransfer)>)
    requires req.SendCoins? && req.owner == owner && req.amount == amount && req.key == key
    requires db.Valid() && db.At(c, req, AfterUsername(db.cfg, c, req, AccountRow(Some(account))))
             && account.id != owner
    modifies db
    ensures db.Valid() && old(db.trace) <= db.trace
    ensures db.At(c, req, if r.Err? then Abandon(r.error) else Leaving(Success(Sent(r.value.0, r.value.1))))
    ensures r.Err? && !db.world.clients[c].tx.status.Active? ==> db.Heard(c, r.error)
  {
    hide SendLines, SaveLines, Reached, Execute;
    var forOwner := CoinTransfer(Uuid(c, 0), Sending, owner, account.id, amount, key);
    var forTarget := CoinTransfer(Uuid(c, 1), Receiving, account.id, owner, amount, key);
    var debit := NewOperation(Uuid(c, 2), Decrease, owner, amount, FromTransfer, Some(forOwner.id));
    var credit := NewOperation(Uuid(c, 3), Increase, account.id, amount, FromTransfer, Some(forTarget.id));
    SendLinesAre(c, req, account.id);

    var saved := SaveOperation(db, c, debit);
    if saved.Err? { return Err(saved.error); }
    saved := SaveOperation(db, c, credit);
    if saved.Err? { return Err(saved.error); }
    var created := Insert(db, c, InsertTransfer(forOwner));
    if created.Err? { return Err(created.error); }
    created := Insert(db, c, InsertTransfer(forTarget));
    if created.Err? { return Err(created.error); }
    return Ok((forOwner, forTarget));
  }

  /** The closure of the transfer: everything between begin and commit. */
  method TransferClosure(db: Server, c: nat, target: string, owner: Id, amount: int64, key: Option<Id>)
    returns (r: Result<(CoinTransfer, CoinTransfer)>)
    requires db.Valid() && db.At(c, SendCoins(target, owner, amount, key),
                                 FirstStage(SendCoins(target, owner, amount, key)))
    modifies db
    ensures db.Valid() && old(db.trace) <= db.trace
    ensures db.At(c, SendCoins(target, owner, amount, key),
                  if r.Err? then Abandon(r.error) else Leaving(Success(Sent(r.value.0, r.value.1))))
    ensures r.Err? && !db.world.clients[c].tx.status.Active? ==> db.Heard(c, r.error)
  {
    ghost var req := SendCoins(target, owner, amount, key);
    if key.Some? {
      var known := FindIdentity(db, c, key.value);
      if known.Err? { return Err(known.error); }
      if known.value { return Err(From(Conflict)); }
    }
    var found := FindItemByUsername(db, c, target);
    if found.Err? { return Err(found.error); }
    if found.value.id == owner { return Err(From(Conflict)); }
    r := TransferWrites(db, c, req, found.value, owner, amount, key);
  }

  /**
   Returns the two transfer rows only when the transfer has committed. An error means that nothing has, unless it is
   the internal error: a commit may have taken effect without its confirmation.
   */
  method MakeTransferByUsername(db: Server, target: string, owner: Id, amount: int64, key: Option<Id>)
    returns (r: Result<(CoinTransfer, CoinTransfer)>, ghost c: nat)
    requires db.Valid()
    modifies db
    ensures db.Valid() && old(db.trace) <= db.trace
    ensures amount <= 0 ==> r == Err(AmountNotPositive) && db.world == old(db.world)
    ensures amount > 0 ==>
              && c !in old(db.world.clients)
              && c in db.world.clients && db.world.clients[c].req == SendCoins(target, owner, amount, key)
              && db.world.clients[c].stage.Ended?
              && (match db.world.clients[c].stage.outcome
                  case Success(reply) =>
                    r.Ok? && reply == Sent(r.value.0, r.value.1)
                    && Answer(db.cfg, db.Snapshot(c), SendCoins(target, owner, amount, key), reply)
                  case Refused(f) => r == Err(f) && Explained(db, c, f)
                  case Unconfirmed(_) => r == Err(From(Internal)))
              && (Landed(db.world.clients[c].stage) <==>
                    exists i :: 0 <= i < |db.world.log| && db.world.log[i].client == c)
    ensures amount > 0 && (r.Ok? || r.error != From(Internal)) ==>
              (r.Ok? <==> exists i :: 0 <= i < |db.world.log| && db.world.log[i].client == c)
  {
    c := 0;
    if amount <= 0 { return Err(AmountNotPositive), 0; }
    var id := db.Begin(SendCoins(target, owner, amount, key));
    c := id;
    r := TransferClosure(db, id, target, owner, amount, key);
    ExplainEnd(db, id);
    var end := Finish(db, id, if r.Err? then Some(r.error) else None);
    if end.Some? { r := Err(end.value); }
  }

  // ----- internal/usecase/shop_purchase.go -----

  lemma BuyLinesAre(c: nat, req: Request, item: ShopItem)
    requires req.Buy?
    ensures var lines := BuyLines(c, req, item);
            && |lines| == 4
            && lines[0..3] == SaveLines(Payment(c, req, item))
            && lines[3..4] == [Line(InsertPurchase(PurchaseRow(c, req, item)), false)]
  {
  }

  /** The writing half of the closure: one operation, then the purchase row. */
  method PurchaseWrites(db: Server, c: nat, ghost req: Request, item: ShopItem, buyer: Id, quantity: int64,
                        key: Option<Id>)
    returns (r: Result<ShopPurchase>)
    requires req.Buy? && req.buyer == buyer && req.quantity == quantity && req.key == key
    requires db.Valid() && db.At(c, req, AfterItem(c, req, ItemRow(Some(item))))
    modifies db
    ensures db.Valid() && old(db.trace) <= db.trace
    ensures db.At(c, req, if r.Err? then Abandon(r.error) else Leaving(Success(Bought(r.value))))
    ensures r.Err? && !db.world.clients[c].tx.status.Active? ==> db.Heard(c, r.error)
  {
    hide BuyLines, SaveLines, Reached, Execute;
    var purchase := ShopPurchase(Uuid(c, 0), item.id, buyer, quantity, key);
    var payment := NewOperation(Uuid(c, 1), Decrease, buyer, Wrap64(item.price * quantity), FromPurchase,
                                Some(purchase.id));
    BuyLinesAre(c, req, item);

    var saved := SaveOperation(db, c, payment);
    if saved.Err? { return Err(saved.error); }
    var created := Insert(db, c, InsertPurchase(purchase));
    if created.Err? { return Err(created.error); }
    return Ok(purchase);
  }

  method PurchaseClosure(db: Server, c: nat, name: string, buyer: Id, quantity: int64, key: Option<Id>)
    returns (r: Result<ShopPurchase>)
    requires db.Valid() && db.At(c, Buy(name, buyer, quantity, key), FirstStage(Buy(name, buyer, quantity, key)))
    modifies db
    ensures db.Valid() && old(db.trace) <= db.trace
    ensures db.At(c, Buy(name, buyer, quantity, key),
                  if r.Err? then Abandon(r.error) else Leaving(Success(Bought(r.value))))
    ensures r.Err? && !db.world.clients[c].tx.status.Active? ==> db.Heard(c, r.error)
  {
    hide Reached;
    ghost var req := Buy(name, buyer, quantity, key);
    if key.Some? {
      var known := FindIdentity(db, c, key.value);
      if known.Err? { return Err(known.error); }
      if known.value { return Err(From(Conflict)); }
    }
    var found := FindItemByName(db, c, name);
    if found.Err? { return Err(found.error); }
    r := PurchaseWrites(db, c, req, found.value, buyer, quantity, key);
  }

  /**
   Returns the purchase row only when the purchase has committed, and an error that is not internal only when it has
   not.
   */
  method MakePurchase(db: Server, name: string, buyer: Id, quantity: int64, key: Option<Id>)
    returns (r: Result<ShopPurchase>, ghost c: nat)
    requires db.Valid()
    modifies db
    ensures db.Valid() && old(db.trace) <= db.trace
    ensures c !in old(db.world.clients)
    ensures c in db.world.clients && db.world.clients[c].req == Buy(name, buyer, quantity, key)
    ensures db.world.clients[c].stage.Ended?
    ensures match db.world.clients[c].stage.outcome
            case Success(reply) =>
              r.Ok? && reply == Bought(r.value)
              && Answer(db.cfg, db.Snapshot(c), Buy(name, buyer, quantity, key), reply)
            case Refused(f) => r == Err(f) && Explained(db, c, f)
            case Unconfirmed(_) => r == Err(From(Internal))
    ensures Landed(db.world.clients[c].stage) <==> exists i :: 0 <= i < |db.world.log| && db.world.log[i].client == c
    ensures r.Ok? || r.error != From(Internal) ==>
              (r.Ok? <==> exists i :: 0 <= i < |db.world.log| && db.world.log[i].client == c)
    ensures quantity <= 0 ==> r.Err? && forall i :: 0 <= i < |db.world.log| ==> db.world.log[i].client != c
  {
    var id := db.Begin(Buy(name, buyer, quantity, key));
    c := id;
    r := PurchaseClosure(db, id, name, buyer, quantity, key);
    ExplainEnd(db, id);
    var end := Finish(db, id, if r.Err? then Some(r.error) else None);
    if end.Some? { r := Err(end.value); }
    if quantity <= 0 {
      Guarantees.NonPositivePurchaseNeverCommits(db.cfg, db.trace, db.world, id);
    }
  }

  // ----- internal/usecase/auth.go -----

  lemma SignUpLinesAre(cfg: Config, c: nat, req: Request)
    requires req.SignIn? && req.hash.Some?
    ensures var lines := SignUpLines(cfg, c, req);
            && |lines| == (if cfg.newAccountAmount > 0 then 4 else 1)
            && lines[0..1] == [Line(InsertAccount(AccountOf(c, req)), false)]
            && (cfg.newAccountAmount > 0 ==> lines[1..4] == SaveLines(Welcome(cfg, c)))
  {
  }

  method SignInClosure(db: Server, c: nat, username: string, hash: Option<string>)
    returns (r: Result<Account>)
    requires db.Valid() && db.At(c, SignIn(username, hash), FindByUsername)
    modifies db
    ensures db.Valid() && old(db.trace) <= db.trace
    ensures db.At(c, SignIn(username, hash), if r.Err? then Abandon(r.error) else Leaving(Success(SignedIn(r.value))))
    ensures r.Err? && !db.world.clients[c].tx.status.Active? ==> db.Heard(c, r.error)
  {
    hide SignUpLines, SaveLines, Reached, Execute, FindAccount;
    ghost var req := SignIn(username, hash);
    var found := FindItemByUsername(db, c, username);
    if found.Ok? { return found; }
    if found.error != From(StoreNoRows) { return Err(found.error); }
    if hash.None? { return Err(From(Internal)); }

    var account := Account(Uuid(c, 0), username, hash.value);
    ghost var lines := SignUpLines(db.cfg, c, req);
    SignUpLinesAre(db.cfg, c, req);
    var created := Insert(db, c, InsertAccount(account));
    if created.Err? { return Err(created.error); }
    if db.cfg.newAccountAmount > 0 {
      var deposit := NewOperation(Uuid(c, 1), Increase, account.id, db.cfg.newAccountAmount, FromDeposit, None);
      var saved := SaveOperation(db, c, deposit);
      if saved.Err? { return Err(saved.error); }
    }
    return Ok(account);
  }

  /**
   Finds the account or creates it with its welcome deposit, in one transaction; then the password decides.
   `matches` stands for the bcrypt comparison of the stored hash with the password given.
   */
  method SignInOrSignUp(db: Server, username: string, hash: Option<string>, matches: string -> bool)
    returns (r: Result<Account>, ghost c: nat)
    requires db.Valid()
    modifies db
    ensures db.Valid() && old(db.trace) <= db.trace
    ensures c !in old(db.world.clients) && c in db.world.clients
    ensures db.world.clients[c].req == SignIn(username, hash) && db.world.clients[c].stage.Ended?
    ensures match db.world.clients[c].stage.outcome
            case Success(reply) =>
              reply.SignedIn? && Answer(db.cfg, db.Snapshot(c), SignIn(username, hash), reply)
              && r == if matches(reply.account.passwordHash) then Ok(reply.account) else Err(From(Unauthorized))
            case Refused(f) => r == Err(f) && Explained(db, c, f)
            case Unconfirmed(_) => r == Err(From(Internal))
    ensures Landed(db.world.clients[c].stage) <==> exists i :: 0 <= i < |db.world.log| && db.world.log[i].client == c
  {
    var id := db.Begin(SignIn(username, hash));
    c := id;
    r := SignInClosure(db, id, username, hash);
    ExplainEnd(db, id);
    var end := Finish(db, id, if r.Err? then Some(r.error) else None);
    if end.Some? { return Err(end.value), id; }
    if !matches(r.value.passwordHash) { r := Err(From(Unauthorized)); }
  }
}
