/** The store as the service sees it: an object on which one request issues statements while others do the same. */
module DatabaseServer {
  import opened Schema
  import opened Failures
  import opened Program
  import opened Store
  import opened History
  import opened Invariant
  import opened Grouping
  import Ledger

  /** The kind of reply a statement gives when it does not fail. */
  predicate Fitting(stmt: Stmt, response: Response) {
    || response.Failed?
    || match stmt
       case CountTransferKey(_) => response.Count?
       case CountPurchaseKey(_) => response.Count?
       case SelectAccount(_) => response.AccountRow?
       case SelectItem(_) => response.ItemRow?
       case SelectBalance(_) => response.BalanceRow?
       case _ => response.Done?
  }

  /** What the reply to one statement tells the caller. */
  lemma ReplyIsFitting(cfg: Config, w: World, c: nat, verdict: Verdict)
    requires Enabled(w, Exec(c, verdict))
    ensures var client := w.clients[c];
            var stmt := NextStmt(client.stage, client.req);
            var (tx, response) := Outcomes(cfg, w, client, verdict);
            && Fitting(stmt, response)
            && tx.began == client.tx.began
            && AfterExec(cfg, w, c, verdict)
               == Client(client.req, Advance(cfg, c, client.req, client.stage, response), tx)
            && (response.Failed? ==> !tx.status.Active?)
            && (!response.Failed? ==>
                  && client.tx.status.Active? && tx.status.Active?
                  && Execute(cfg, Store.At(w.past, tx.began), client.tx.writes, stmt) == Fine(tx.writes, response))
  {
  }

  /** Unless it met a fault, a statement is answered as the store performs it, or refused by a dead transaction. */
  lemma ReplyWithoutFault(cfg: Config, w: World, c: nat, atOnce: bool)
    requires Enabled(w, Exec(c, Normal(atOnce)))
    ensures var client, w' := w.clients[c], Next(cfg, w, Exec(c, Normal(atOnce)));
            AsPerformed(cfg, w', client.tx, NextStmt(client.stage, client.req), w'.clients[c].tx,
                        Outcomes(cfg, w, client, Normal(atOnce)).1)
  {
    hide Execute, Advance;
  }

  /** The reply to a statement that met no fault; the transaction before it is `before`, after it `after`. */
  ghost predicate AsPerformed(cfg: Config, w: World, before: Tx, stmt: Stmt, after: Tx, response: Response) {
    match before.status
    case Lost => response.Failed? && response.error == ConnectionLost && after == before
    case Failed => response.Failed? && response.error == Server(S25P02) && after == before
    case Active =>
      match Perform(cfg, w, before, stmt)
      case Broken(state) =>
        response == Response.Failed(Server(state), false) && after == before.(status := Status.Failed)
      case Fine(writes, reply) => response == reply && after == before.(writes := writes)
  }

  function RowsWithIds(accounts: seq<Account>, ids: seq<Id>): (rows: seq<Account>)
    ensures forall a :: a in rows <==> a in accounts && a.id in ids
  {
    if accounts == [] then []
    else (if accounts[0].id in ids then [accounts[0]] else []) + RowsWithIds(accounts[1..], ids)
  }

  function ItemsWithIds(items: seq<ShopItem>, ids: seq<Id>): (rows: seq<ShopItem>)
    ensures forall i :: i in rows <==> i in items && i.id in ids
  {
    if items == [] then []
    else (if items[0].id in ids then [items[0]] else []) + ItemsWithIds(items[1..], ids)
  }

  /** A longer run has all the committed states of a shorter one, and more rows. */
  lemma {:induction false} RunsGrow(cfg: Config, w: World, shorter: seq<Action>, longer: seq<Action>, v: World,
                                    v': World)
    requires shorter <= longer && Leads(cfg, w, shorter, v) && Leads(cfg, w, longer, v')
    ensures v.past <= v'.past && v.log <= v'.log
    decreases |longer|
  {
    if shorter == [] {
      PastGrows(cfg, w, longer, v');
    } else {
      RunsGrow(cfg, Next(cfg, w, longer[0]), shorter[1..], longer[1..], v, v');
    }
  }

  lemma {:induction false} PastGrows(cfg: Config, w: World, acts: seq<Action>, w': World)
    requires Leads(cfg, w, acts, w')
    ensures w.past <= w'.past && w.log <= w'.log
    decreases |acts|
  {
    if acts != [] {
      PastGrows(cfg, Next(cfg, w, acts[0]), acts[1..], w');
    }
  }

  /** What was committed earlier in a run is still there later. */
  lemma CommittedGrows(cfg: Config, shorter: seq<Action>, longer: seq<Action>, v: World, v': World)
    requires shorter <= longer && Reached(cfg, shorter, v) && Reached(cfg, longer, v')
    ensures |v.past| == |v.log| + 1 && |v'.past| == |v'.log| + 1 && v.past <= v'.past && v.log <= v'.log
    ensures Grown(Committed(v), Committed(v'))
  {
    ReachedInv(cfg, shorter, v);
    ReachedInv(cfg, longer, v');
    RunsGrow(cfg, INITIAL, shorter, longer, v, v');
    Ledger.GrownBetween(cfg, v'.past, v'.log, |v.log|, |v'.log|);
  }

  class Server {
    const cfg: Config
    var world: World
    var nextRequest: nat
    ghost var trace: seq<Action>  // everything that happened since the tables were created
    ghost var heard: map<nat, Response>  // the reply to the latest statement of each request
    ghost var readErrors: seq<DbError>  // the errors that reads outside a transaction have met

    ghost predicate Valid()
      reads this
    {
      Reached(cfg, trace, world) && forall c :: c in world.clients ==> c < nextRequest
    }

    /** Request c is where `stage` says, serving `req`. */
    ghost predicate At(c: nat, req: Request, stage: Stage)
      reads this
    {
      c in world.clients && world.clients[c].req == req && world.clients[c].stage == stage
    }

    /** The snapshot of request c. */
    ghost function Snapshot(c: nat): Tables
      requires c in world.clients
      reads this
    {
      Store.At(world.past, world.clients[c].tx.began)
    }

    /** The latest statement of request c failed, with an error that is converted to this one. */
    ghost predicate Heard(c: nat, failure: Failure)
      reads this
    {
      c in heard && heard[c].Failed? && failure == FailureFor(heard[c].error)
    }

    /** Since there were n read errors one more read has failed, with an error that is converted to this one. */
    ghost predicate ReadFailed(n: nat, failure: Failure)
      reads this
    {
      |readErrors| == n + 1 && failure == FailureFor(readErrors[n])
    }

    /** What the transaction of request c sees: its snapshot and its own rows. */
    ghost function View(c: nat): Tables
      requires c in world.clients
      reads this
    {
      Merge(Store.At(world.past, world.clients[c].tx.began), world.clients[c].tx.writes)
    }

    constructor (cfg: Config)
      ensures Valid() && this.cfg == cfg && world == INITIAL && trace == []
    {
      this.cfg := cfg;
      world := INITIAL;
      nextRequest := 0;
      trace := [];
      heard := map[];
      readErrors := [];
    }

    /** Whatever other requests do in the meantime: the contract admits any number of their actions. */
    method Others(c: nat)
      requires Valid()
      modifies this
      ensures Valid() && old(trace) <= trace && nextRequest >= old(nextRequest)
      ensures forall k :: |old(trace)| <= k < |trace| ==> trace[k].client != c
      ensures c in old(world.clients) ==> c in world.clients && world.clients[c] == old(world.clients[c])
      ensures c in world.clients ==> c in old(world.clients)
      ensures c in old(heard) ==> c in heard && heard[c] == old(heard[c])
    {
    }

    /** Whatever requests do, those that are running and those that begin; what others read does not count. */
    method Anyone()
      requires Valid()
      modifies this
      ensures Valid() && old(trace) <= trace && nextRequest >= old(nextRequest)
      ensures readErrors == old(readErrors)
    {
    }

    /** One action of request c, with no other in between. */
    method Act(act: Action)
      requires Valid() && Enabled(world, act) && act.client < nextRequest
      modifies this`world, this`trace
      ensures Valid() && world == Next(cfg, old(world), act) && trace == old(trace) + [act]
    {
      LeadsAppend(cfg, INITIAL, trace, world, [act], Next(cfg, world, act));
      world := Next(cfg, world, act);
      trace := trace + [act];
    }

    /** BEGIN, with the snapshot that the first statement takes. */
    method Begin(req: Request) returns (c: nat)
      requires Valid() && (req.SendCoins? ==> req.amount > 0)
      modifies this
      ensures Valid() && old(trace) <= trace
      ensures c !in old(world.clients) && At(c, req, FirstStage(req))
      ensures world.clients[c].tx == Tx(|world.log|, EMPTY, Active)
      ensures |trace| > |old(trace)| && trace[|trace| - 1] == Action.Begin(c, req)
    {
      c := nextRequest;
      Others(c);
      nextRequest := nextRequest + 1;
      Act(Action.Begin(c, req));
    }

    /**
     One statement of request c, at a moment the scheduler chooses: exactly one action of c, after any number of
     actions of others. A statement that would wait for a row lock for ever is picked as deadlock victim.
     */
    method Statement(c: nat, stmt: Stmt) returns (response: Response)
      requires Valid() && c in world.clients && Issues(world.clients[c].stage, world.clients[c].req)
      requires NextStmt(world.clients[c].stage, world.clients[c].req) == stmt
      modifies this
      ensures Valid() && old(trace) <= trace
      ensures At(c, old(world.clients[c].req),
                 Advance(cfg, c, old(world.clients[c].req), old(world.clients[c].stage), response))
      ensures Fitting(stmt, response)
      ensures c in heard && heard[c] == response
      ensures |trace| > |old(trace)| && trace[|trace| - 1].Exec? && trace[|trace| - 1].client == c
      ensures forall k :: |old(trace)| <= k < |trace| - 1 ==> trace[k].client != c
      ensures world.clients[c].tx.began == old(world.clients[c].tx.began) <= |world.log| < |world.past|
      ensures response.Failed? ==> !world.clients[c].tx.status.Active?
      ensures trace[|trace| - 1].verdict.Normal? ==>
                AsPerformed(cfg, world, old(world.clients[c].tx), stmt, world.clients[c].tx, response)
      ensures !response.Failed? ==>
                && old(world.clients[c].tx.status.Active?) && world.clients[c].tx.status.Active?
                && Execute(cfg, Store.At(world.past, world.clients[c].tx.began), old(world.clients[c].tx.writes), stmt)
                   == Fine(world.clients[c].tx.writes, response)
    {
      hide Advance, Perform, Execute, Outcomes, AfterExec, Fitting, StageOk, AsPerformed;
      Others(c);
      var client := world.clients[c];
      var fault: bool, error: DbError, atOnce: bool := *, *, *;
      var verdict := if fault then Fault(error, atOnce)
                     else if client.tx.status.Active? && Blocked(world, c, stmt) then
                       Fault(Server(DEADLOCK_DETECTED), atOnce)
                     else Normal(atOnce);
      var (tx, reply) := Outcomes(cfg, world, client, verdict);
      ReachedInv(cfg, trace, world);
      assert ClientOk(cfg, world.past, world.log, c, client);
      ReplyIsFitting(cfg, world, c, verdict);
      response := reply;
      heard := heard[c := reply];
      if verdict.Normal? {
        ReplyWithoutFault(cfg, world, c, verdict.atOnce);
      }
      Act(Exec(c, verdict));
    }

    /** COMMIT: the server may roll back and say so, or commit and lose the connection before saying so. */
    method Commit(c: nat) returns (confirmed: bool)
      requires Valid() && c in world.clients
      requires world.clients[c].stage.Leaving? && world.clients[c].stage.outcome.Success?
      modifies this
      ensures Valid() && old(trace) <= trace
      ensures c in world.clients && world.clients[c].req == old(world.clients[c].req) && world.clients[c].stage.Ended?
      ensures confirmed ==> world.clients[c].stage.outcome == old(world.clients[c].stage.outcome)
      ensures !confirmed ==> world.clients[c].stage.outcome
                             in {Refused(From(Internal)), Unconfirmed(old(world.clients[c].stage.outcome.reply))}
      ensures Landed(world.clients[c].stage) <==> exists i :: 0 <= i < |world.log| && world.log[i].client == c
      ensures world.clients[c].tx == old(world.clients[c].tx)
               && (c in old(heard) ==> c in heard && heard[c] == old(heard[c]))
      ensures |trace| > 0
      ensures world.clients[c].stage.outcome.Refused? ==> trace[|trace| - 1] == Action.CommitFails(c)
    {
      hide Completes, LocksOk;
      Others(c);
      ReachedInv(cfg, trace, world);
      assert ClientOk(cfg, world.past, world.log, c, world.clients[c]);
      var refused: bool;
      refused, confirmed := *, *;
      if refused {
        confirmed := false;
        Act(Action.CommitFails(c));
      } else {
        Act(Action.Commit(c, confirmed));
      }
      ReachedInv(cfg, trace, world);
      assert ClientOk(cfg, world.past, world.log, c, world.clients[c]);
    }

    /**
     ROLLBACK: when it fails the connection is dropped, which rolls back too, but the caller is told of that failure.
     */
    method Rollback(c: nat) returns (confirmed: bool)
      requires Valid() && c in world.clients
      requires world.clients[c].stage.Leaving? && world.clients[c].stage.outcome.Refused?
      modifies this
      ensures Valid() && old(trace) <= trace
      ensures At(c, old(world.clients[c].req),
                 Ended(if confirmed then old(world.clients[c].stage.outcome) else Refused(From(Internal))))
      ensures forall i :: 0 <= i < |world.log| ==> world.log[i].client != c
      ensures world.clients[c].tx == old(world.clients[c].tx)
               && (c in old(heard) ==> c in heard && heard[c] == old(heard[c]))
      ensures |trace| > 0 && trace[|trace| - 1] == Action.Rollback(c, confirmed)
    {
      Others(c);
      confirmed := *;
      Act(Action.Rollback(c, confirmed));
      ReachedInv(cfg, trace, world);
      assert ClientOk(cfg, world.past, world.log, c, world.clients[c]);
    }

    // ----- statements outside a transaction: each sees what is committed when it runs, or fails -----

    /** A failure for a reason outside the model. */
    method Fails() returns (failure: Option<Failure>)
      modifies this`readErrors
      ensures failure.Some? ==> ReadFailed(old(|readErrors|), failure.value)
      ensures failure.None? ==> readErrors == old(readErrors)
    {
      var fault: bool, error: DbError := *, *;
      if !fault { return None; }
      readErrors := readErrors + [error];
      return Some(FailureFor(error));
    }

    method SelectBalance(id: Id) returns (r: Result<Option<int64>>)
      requires Valid()
      modifies this
      ensures Valid() && old(trace) <= trace
      ensures if r.Ok? then readErrors == old(readErrors) else ReadFailed(old(|readErrors|), r.error)
      ensures r.Ok? ==> r.value == if id in Committed(world).balances then Some(Committed(world).balances[id]) else None
    {
      Anyone();
      var failure := Fails();
      if failure.Some? { return Err(failure.value); }
      var balances := Committed(world).balances;
      r := Ok(if id in balances then Some(balances[id]) else None);
    }

    /** SELECT counterparty_account_id, SUM(amount) ... GROUP BY: in any order, the sums exact. */
    method SelectHistory(owner: Id, kind: CoinTransferType) returns (r: Result<seq<Group>>)
      requires Valid()
      modifies this
      ensures Valid() && old(trace) <= trace
      ensures if r.Ok? then readErrors == old(readErrors) else ReadFailed(old(|readErrors|), r.error)
      ensures r.Ok? ==> Grouped(HistoryRows(Committed(world).transfers, owner, kind), r.value)
    {
      Anyone();
      var failure := Fails();
      if failure.Some? { return Err(failure.value); }
      var rows := HistoryRows(Committed(world).transfers, owner, kind);
      GroupRowsIsGrouped(rows);
      r := Ok(GroupRows(rows));
    }

    method SelectInventory(account: Id) returns (r: Result<seq<Group>>)
      requires Valid()
      modifies this
      ensures Valid() && old(trace) <= trace
      ensures if r.Ok? then readErrors == old(readErrors) else ReadFailed(old(|readErrors|), r.error)
      ensures r.Ok? ==> Grouped(InventoryRows(Committed(world).purchases, account), r.value)
    {
      Anyone();
      var failure := Fails();
      if failure.Some? { return Err(failure.value); }
      var rows := InventoryRows(Committed(world).purchases, account);
      GroupRowsIsGrouped(rows);
      r := Ok(GroupRows(rows));
    }

    method SelectAccounts(ids: seq<Id>) returns (r: Result<seq<Account>>)
      requires Valid()
      modifies this
      ensures Valid() && old(trace) <= trace
      ensures if r.Ok? then readErrors == old(readErrors) else ReadFailed(old(|readErrors|), r.error)
      ensures r.Ok? ==> forall a :: a in r.value <==> a in Committed(world).accounts && a.id in ids
    {
      Anyone();
      var failure := Fails();
      if failure.Some? { return Err(failure.value); }
      r := Ok(RowsWithIds(Committed(world).accounts, ids));
    }

    method SelectItems(ids: seq<Id>) returns (r: Result<seq<ShopItem>>)
      requires Valid()
      modifies this
      ensures Valid() && old(trace) <= trace
      ensures if r.Ok? then readErrors == old(readErrors) else ReadFailed(old(|readErrors|), r.error)
      ensures r.Ok? ==> forall i :: i in r.value <==> i in cfg.items && i.id in ids
    {
      Anyone();
      var failure := Fails();
      if failure.Some? { return Err(failure.value); }
      r := Ok(ItemsWithIds(cfg.items, ids));
    }
  }
}
