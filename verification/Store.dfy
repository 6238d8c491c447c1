/**
 The shared store: PostgreSQL under REPEATABLE READ, reduced to what section 13.2.2 of the
 PostgreSQL 16 documentation promises. One action is one statement, one commit or one rollback;
 actions of different requests interleave freely.
 */
module Store {
  import opened Schema
  import opened Failures
  import opened Program

  /** Failed: the server refuses every further statement. Lost: the connection is gone. */
  datatype Status = Active | Failed | Lost

  /** `began` is the number of commits the snapshot sees; `writes` are the transaction's own rows. */
  datatype Tx = Tx(began: nat, writes: Tables, status: Status)

  datatype Client = Client(req: Request, stage: Stage, tx: Tx)

  /** One committed request. */
  datatype Entry = Entry(client: nat, req: Request, began: nat, writes: Tables, reply: Reply)

  /**
   `past[n]` are the committed tables after n commits, `log[n]` the commit that led from past[n] to past[n+1].
   `versions` holds, for each row of `operation_balance`, the number of the commit that wrote it last.
   */
  datatype World = World(past: seq<Tables>, log: seq<Entry>, versions: map<Id, nat>, clients: map<nat, Client>)

  const INITIAL: World := World([EMPTY], [], map[], map[])

  function At(past: seq<Tables>, n: nat): Tables {
    if n < |past| then past[n] else EMPTY
  }

  function Committed(w: World): Tables {
    At(w.past, |w.log|)
  }

  function Version(w: World, id: Id): nat {
    if id in w.versions then w.versions[id] else 0
  }

  // ----- statements inside a transaction -----

  datatype Effect = Fine(writes: Tables, response: Response) | Broken(state: SqlState)

  /** A statement that meets no concurrent change: it sees the snapshot and the transaction's own writes. */
  function Execute(cfg: Config, snapshot: Tables, writes: Tables, stmt: Stmt): Effect {
    var view := Merge(snapshot, writes);
    match stmt
    case CountTransferKey(key) => Fine(writes, Count(HasTransferKey(view.transfers, key)))
    case CountPurchaseKey(key) => Fine(writes, Count(HasPurchaseKey(view.purchases, key)))
    case SelectAccount(username) => Fine(writes, AccountRow(FindAccount(view.accounts, username)))
    case SelectItem(name) => Fine(writes, ItemRow(FindItem(cfg.items, name)))
    case InsertAccount(account) =>
      if FindAccount(view.accounts, account.username).Some? then Broken(S23505)
      else Fine(writes.(accounts := writes.accounts + [account]), Done)
    case InsertOperation(operation) =>
      if !HasAccount(view.accounts, operation.account) then Broken(S23503)
      else Fine(writes.(operations := writes.operations + [operation]), Done)
    case UpsertBalance(id) =>
      var sum := SumOf(view.operations, id);
      if !FitsInt64(sum) then Broken(NUMERIC_OUT_OF_RANGE)
      else if !HasAccount(view.accounts, id) then Broken(S23503)
      else Fine(writes.(balances := writes.balances[id := sum]), Done)
    case SelectBalance(id) => Fine(writes, BalanceRow(BalanceOf(view, id), id in view.balances))
    case InsertTransfer(transfer) =>
      if transfer.amount <= 0 then Broken(S23514)
      else if !HasAccount(view.accounts, transfer.owner) || !HasAccount(view.accounts, transfer.counterparty)
        then Broken(S23503)
      else Fine(writes.(transfers := writes.transfers + [transfer]), Done)
    case InsertPurchase(purchase) =>
      if purchase.quantity <= 0 then Broken(S23514)
      else if !HasAccount(view.accounts, purchase.account) || !HasItem(cfg.items, purchase.item) then Broken(S23503)
      else Fine(writes.(purchases := writes.purchases + [purchase]), Done)
  }

  /** The statement on the server: writing a row that was committed after the snapshot fails. */
  function Perform(cfg: Config, w: World, tx: Tx, stmt: Stmt): Effect {
    match stmt
    case UpsertBalance(id) =>
      if Version(w, id) > tx.began then Broken(S40001) else Execute(cfg, At(w.past, tx.began), tx.writes, stmt)
    case InsertAccount(account) =>
      if FindAccount(Committed(w).accounts, account.username).Some? then Broken(S23505)
      else Execute(cfg, At(w.past, tx.began), tx.writes, stmt)
    case _ => Execute(cfg, At(w.past, tx.began), tx.writes, stmt)
  }

  // ----- row locks -----

  /** Only a live transaction that has not failed holds the rows it wrote. */
  predicate Holding(client: Client) {
    !client.stage.Ended? && client.tx.status.Active?
  }

  predicate WritesUsername(accounts: seq<Account>, username: string) {
    exists a :: a in accounts && a.username == username
  }

  predicate Holds(client: Client, stmt: Stmt) {
    && Holding(client)
    && match stmt
       case UpsertBalance(id) => id in client.tx.writes.balances
       case InsertAccount(account) => WritesUsername(client.tx.writes.accounts, account.username)
       case _ => false
  }

  /** A writer of a row that another transaction holds has to wait. */
  predicate Blocked(w: World, c: nat, stmt: Stmt) {
    exists other :: other in w.clients && other != c && Holds(w.clients[other], stmt)
  }

  // ----- actions -----

  /** The request is committed, whether or not its caller was told. */
  predicate Landed(stage: Stage) {
    stage.Ended? && !stage.outcome.Refused?
  }

  /**
   Normal: the server executes the statement; `atOnce` says how a failed transaction refuses it.
   Fault: the statement fails for a reason outside the model (deadlock victim, timeout, broken connection).
   */
  datatype Verdict = Normal(atOnce: bool) | Fault(error: DbError, atOnce: bool)

  datatype Action =
    | Begin(client: nat, req: Request)
    | Exec(client: nat, verdict: Verdict)
    | Commit(client: nat, confirmed: bool)
    | CommitFails(client: nat)
    | Rollback(client: nat, confirmed: bool)

  predicate Enabled(w: World, act: Action) {
    match act
    case Begin(c, req) => c !in w.clients && (req.SendCoins? ==> req.amount > 0)
    case Exec(c, verdict) =>
      && c in w.clients
      && var client := w.clients[c];
      && Issues(client.stage, client.req)
      && (verdict.Normal? && client.tx.status.Active? ==> !Blocked(w, c, NextStmt(client.stage, client.req)))
    case Commit(c, _) =>
      && c in w.clients
      && var client := w.clients[c];
      && client.stage.Leaving? && client.stage.outcome.Success? && client.tx.status.Active?
    case CommitFails(c) =>
      && c in w.clients
      && w.clients[c].stage.Leaving? && w.clients[c].stage.outcome.Success?
    case Rollback(c, _) =>
      && c in w.clients
      && w.clients[c].stage.Leaving? && w.clients[c].stage.outcome.Refused?
  }

  /** The transaction after its next statement, and what the statement replies. */
  function Outcomes(cfg: Config, w: World, client: Client, verdict: Verdict): (Tx, Response)
    requires Issues(client.stage, client.req)
  {
    var tx := client.tx;
    match verdict
    case Fault(error, atOnce) =>
      (tx.(status := if error.ConnectionLost? then Lost else if tx.status.Active? then Status.Failed else tx.status),
       Response.Failed(error, atOnce))
    case Normal(atOnce) =>
      match tx.status
      case Lost => (tx, Response.Failed(ConnectionLost, atOnce))
      case Failed => (tx, Response.Failed(Server(S25P02), atOnce))
      case Active =>
        match Perform(cfg, w, tx, NextStmt(client.stage, client.req))
        case Broken(state) => (tx.(status := Status.Failed), Response.Failed(Server(state), false))
        case Fine(writes, response) => (tx.(writes := writes), response)
  }

  function AfterExec(cfg: Config, w: World, c: nat, verdict: Verdict): Client
    requires c in w.clients && Issues(w.clients[c].stage, w.clients[c].req)
  {
    var client := w.clients[c];
    var (tx, response) := Outcomes(cfg, w, client, verdict);
    Client(client.req, Advance(cfg, c, client.req, client.stage, response), tx)
  }

  function EntryOf(c: nat, client: Client): Entry
    requires client.stage.Leaving? && client.stage.outcome.Success?
  {
    Entry(c, client.req, client.tx.began, client.tx.writes, client.stage.outcome.reply)
  }

  function Next(cfg: Config, w: World, act: Action): World
    requires Enabled(w, act)
  {
    match act
    case Begin(c, req) =>
      w.(clients := w.clients[c := Client(req, FirstStage(req), Tx(|w.log|, EMPTY, Active))])
    case Exec(c, verdict) =>
      w.(clients := w.clients[c := AfterExec(cfg, w, c, verdict)])
    case Commit(c, confirmed) =>
      var client := w.clients[c];
      var reply := client.stage.outcome.reply;
      World(w.past + [Merge(Committed(w), client.tx.writes)],
            w.log + [EntryOf(c, client)],
            map id | id in w.versions.Keys + client.tx.writes.balances.Keys ::
              if id in client.tx.writes.balances then |w.log| + 1 else w.versions[id],
            w.clients[c := client.(stage := Ended(if confirmed then Success(reply) else Unconfirmed(reply)))])
    case CommitFails(c) =>
      w.(clients := w.clients[c := w.clients[c].(stage := Ended(Refused(From(Internal))))])
    case Rollback(c, confirmed) =>
      var outcome := if confirmed then w.clients[c].stage.outcome else Refused(From(Internal));
      w.(clients := w.clients[c := w.clients[c].(stage := Ended(outcome))])
  }

  /** The run of `acts` is possible from w and ends in w'. */
  ghost predicate Leads(cfg: Config, w: World, acts: seq<Action>, w': World)
    decreases |acts|
  {
    if acts == [] then w == w'
    else Enabled(w, acts[0]) && Leads(cfg, Next(cfg, w, acts[0]), acts[1..], w')
  }

  /** Any interleaving of any requests from the empty ledger. */
  ghost predicate Reached(cfg: Config, acts: seq<Action>, w: World) {
    Leads(cfg, INITIAL, acts, w)
  }

  lemma {:induction false} LeadsAppend(cfg: Config, w: World, first: seq<Action>, middle: World, second: seq<Action>,
                                       w': World)
    requires Leads(cfg, w, first, middle) && Leads(cfg, middle, second, w')
    ensures Leads(cfg, w, first + second, w')
    decreases |first|
  {
    if first == [] {
      assert first + second == second;
    } else {
      assert (first + second)[1..] == first[1..] + second;
      LeadsAppend(cfg, Next(cfg, w, first[0]), first[1..], middle, second, w');
    }
  }
}
