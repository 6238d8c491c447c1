/** The three requests as programs: which statement each issues next, given the replies so far. */
module Program {
  import opened Schema
  import opened Failures

  /** `hash` is what bcrypt makes of the password; None when hashing fails. */
  datatype Request =
    | SignIn(username: string, hash: Option<string>)
    | SendCoins(target: string, owner: Id, amount: int64, key: Option<Id>)
    | Buy(item: string, buyer: Id, quantity: int64, key: Option<Id>)

  /** What a successful request returns. */
  datatype Reply =
    | SignedIn(account: Account)
    | Sent(forOwner: CoinTransfer, forTarget: CoinTransfer)
    | Bought(purchase: ShopPurchase)

  datatype Stmt =
    | CountTransferKey(key: Id)
    | CountPurchaseKey(key: Id)
    | SelectAccount(username: string)
    | SelectItem(name: string)
    | InsertAccount(account: Account)
    | InsertOperation(operation: Operation)
    | UpsertBalance(id: Id)
    | SelectBalance(id: Id)
    | InsertTransfer(transfer: CoinTransfer)
    | InsertPurchase(purchase: ShopPurchase)

  /** `atOnce`: the error comes back from the query call itself; otherwise only a reader of the rows sees it. */
  datatype Response =
    | Done
    | Count(found: bool)
    | AccountRow(accountRow: Option<Account>)
    | ItemRow(itemRow: Option<ShopItem>)
    | BalanceRow(balance: int64, found: bool)   // zero when there is no row
    | Failed(error: DbError, atOnce: bool)

  // ----- rows a request creates -----

  function StoredAmount(kind: OperationType, amount: int64): int64 {
    if kind.Decrease? then Negate64(amount) else amount
  }

  function NewOperation(id: Id, kind: OperationType, account: Id, amount: int64, source: SourceType,
                        sourceId: Option<Id>): Operation {
    Operation(id, kind, account, StoredAmount(kind, amount), source, sourceId)
  }

  function SendingRow(c: nat, req: Request, target: Id): CoinTransfer
    requires req.SendCoins?
  {
    CoinTransfer(Uuid(c, 0), Sending, req.owner, target, req.amount, req.key)
  }

  function ReceivingRow(c: nat, req: Request, target: Id): CoinTransfer
    requires req.SendCoins?
  {
    CoinTransfer(Uuid(c, 1), Receiving, target, req.owner, req.amount, req.key)
  }

  function Debit(c: nat, req: Request): Operation
    requires req.SendCoins?
  {
    NewOperation(Uuid(c, 2), Decrease, req.owner, req.amount, FromTransfer, Some(Uuid(c, 0)))
  }

  function Credit(c: nat, req: Request, target: Id): Operation
    requires req.SendCoins?
  {
    NewOperation(Uuid(c, 3), Increase, target, req.amount, FromTransfer, Some(Uuid(c, 1)))
  }

  function PurchaseRow(c: nat, req: Request, item: ShopItem): ShopPurchase
    requires req.Buy?
  {
    ShopPurchase(Uuid(c, 0), item.id, req.buyer, req.quantity, req.key)
  }

  function Payment(c: nat, req: Request, item: ShopItem): Operation
    requires req.Buy?
  {
    NewOperation(Uuid(c, 1), Decrease, req.buyer, Wrap64(item.price * req.quantity), FromPurchase, Some(Uuid(c, 0)))
  }

  function AccountOf(c: nat, req: Request): Account
    requires req.SignIn? && req.hash.Some?
  {
    Account(Uuid(c, 0), req.username, req.hash.value)
  }

  function Welcome(cfg: Config, c: nat): Operation {
    NewOperation(Uuid(c, 1), Increase, Uuid(c, 0), cfg.newAccountAmount, FromDeposit, None)
  }

  // ----- the straight-line part of a request -----

  /** One statement of the writing part; after a guarded balance read the code gives up when the balance is negative. */
  datatype Line = Line(stmt: Stmt, guarded: bool)

  /** SaveOperation: insert, upsert of the balance row, read-back. */
  function SaveLines(operation: Operation): seq<Line> {
    [Line(InsertOperation(operation), false),
     Line(UpsertBalance(operation.account), false),
     Line(SelectBalance(operation.account), operation.kind.Decrease?)]
  }

  function SendLines(c: nat, req: Request, target: Id): seq<Line>
    requires req.SendCoins?
  {
    SaveLines(Debit(c, req)) + SaveLines(Credit(c, req, target))
    + [Line(InsertTransfer(SendingRow(c, req, target)), false),
       Line(InsertTransfer(ReceivingRow(c, req, target)), false)]
  }

  function BuyLines(c: nat, req: Request, item: ShopItem): seq<Line>
    requires req.Buy?
  {
    SaveLines(Payment(c, req, item)) + [Line(InsertPurchase(PurchaseRow(c, req, item)), false)]
  }

  function SignUpLines(cfg: Config, c: nat, req: Request): seq<Line>
    requires req.SignIn? && req.hash.Some?
  {
    [Line(InsertAccount(AccountOf(c, req)), false)]
    + if cfg.newAccountAmount > 0 then SaveLines(Welcome(cfg, c)) else []
  }

  // ----- control flow -----

  /** Unconfirmed: the commit took effect, but its confirmation was lost, so the caller is given the internal error. */
  datatype Outcome = Success(reply: Reply) | Refused(failure: Failure) | Unconfirmed(reply: Reply)

  datatype Stage =
    | CheckKey
    | FindByUsername
    | FindByItemName
    | Writing(lines: seq<Line>, pos: nat, reply: Reply)
    | Leaving(outcome: Outcome)   // the closure has returned; commit or rollback comes next
    | Ended(outcome: Outcome)

  function FirstStage(req: Request): Stage {
    match req
    case SignIn(_, _) => FindByUsername
    case SendCoins(_, _, _, key) => if key.Some? then CheckKey else FindByUsername
    case Buy(_, _, _, key) => if key.Some? then CheckKey else FindByItemName
  }

  predicate Issues(stage: Stage, req: Request) {
    match stage
    case CheckKey => !req.SignIn? && req.key.Some?
    case FindByUsername => !req.Buy?
    case FindByItemName => req.Buy?
    case Writing(lines, pos, _) => pos < |lines|
    case _ => false
  }

  function NextStmt(stage: Stage, req: Request): Stmt
    requires Issues(stage, req)
  {
    match stage
    case CheckKey => if req.SendCoins? then CountTransferKey(req.key.value) else CountPurchaseKey(req.key.value)
    case FindByUsername => SelectAccount(if req.SignIn? then req.username else req.target)
    case FindByItemName => SelectItem(req.item)
    case Writing(lines, pos, _) => lines[pos].stmt
  }

  function Abandon(failure: Failure): Stage {
    Leaving(Refused(failure))
  }

  function Onward(stage: Stage): Stage
    requires stage.Writing?
  {
    if stage.pos + 1 == |stage.lines| then Leaving(Success(stage.reply)) else stage.(pos := stage.pos + 1)
  }

  /** Where the code goes after the reply to its current statement. */
  function Advance(cfg: Config, c: nat, req: Request, stage: Stage, response: Response): Stage
    requires Issues(stage, req)
  {
    match stage
    case CheckKey => AfterKey(req, response)
    case FindByUsername => AfterUsername(cfg, c, req, response)
    case FindByItemName => AfterItem(c, req, response)
    case Writing(_, _, _) => AfterLine(stage, response)
  }

  function AfterKey(req: Request, response: Response): Stage
    requires !req.SignIn?
  {
    match response
    case Failed(error, _) => Abandon(FailureFor(error))
    case Count(found) =>
      if found then Abandon(From(Conflict)) else if req.SendCoins? then FindByUsername else FindByItemName
    case _ => Abandon(From(Internal))
  }

  function AfterUsername(cfg: Config, c: nat, req: Request, response: Response): Stage
    requires !req.Buy?
  {
    match response
    case Failed(error, _) => Abandon(FailureFor(error))
    case AccountRow(None) =>
      if req.SendCoins? then Abandon(From(StoreNoRows))
      else if req.hash.None? then Abandon(From(Internal))
      else Writing(SignUpLines(cfg, c, req), 0, SignedIn(AccountOf(c, req)))
    case AccountRow(Some(account)) =>
      if req.SignIn? then Leaving(Success(SignedIn(account)))
      else if account.id == req.owner then Abandon(From(Conflict))
      else Writing(SendLines(c, req, account.id), 0,
                   Sent(SendingRow(c, req, account.id), ReceivingRow(c, req, account.id)))
    case _ => Abandon(From(Internal))
  }

  function AfterItem(c: nat, req: Request, response: Response): Stage
    requires req.Buy?
  {
    match response
    case Failed(error, _) => Abandon(FailureFor(error))
    case ItemRow(None) => Abandon(From(StoreNoRows))
    case ItemRow(Some(item)) => Writing(BuyLines(c, req, item), 0, Bought(PurchaseRow(c, req, item)))
    case _ => Abandon(From(Internal))
  }

  /** The rows of the upsert are closed unread: an error that did not come back at once goes unnoticed here. */
  function AfterLine(stage: Stage, response: Response): Stage
    requires stage.Writing? && stage.pos < |stage.lines|
  {
    var line := stage.lines[stage.pos];
    match response
    case Failed(error, atOnce) =>
      if line.stmt.UpsertBalance? && !atOnce then Onward(stage) else Abandon(FailureFor(error))
    case BalanceRow(balance, _) =>
      if line.guarded && balance < 0 then Abandon(NotEnoughFunds) else Onward(stage)
    case _ => Onward(stage)
  }
}
