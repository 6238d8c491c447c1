/**
 When a request can commit: alone exactly when the serial ledger serves it, and beside others when they write apart.
 */
module Progress {
  import opened Schema
  import opened Program
  import opened Store
  import opened History
  import opened Invariant
  import opened Posting
  import opened Ledger
  import opened Serial

  // ----- a served request runs to its end -----

  /** The running balance of every account is the sum of its operations. */
  ghost predicate BalancesAreSums(tables: Tables) {
    forall id :: BalanceOf(tables, id) == SumOf(tables.operations, id)
  }

  /** SaveOperation goes through when the account exists, the sum fits, and a debit is covered. */
  lemma SaveRuns(cfg: Config, snapshot: Tables, lines: seq<Line>, n: nat, writes: Tables, operation: Operation)
    requires n + 3 <= |lines| && lines[n..n + 3] == SaveLines(operation)
    requires RunLines(cfg, snapshot, lines, n) == Some(writes)
    requires HasAccount(snapshot.accounts + writes.accounts, operation.account)
    requires var sum := SumOf(snapshot.operations, operation.account)
             + SumOf(writes.operations + [operation], operation.account);
             FitsInt64(sum) && (operation.kind.Decrease? ==> sum >= 0)
    ensures RunLines(cfg, snapshot, lines, n + 3)
         == Some(WithOperation(writes, operation, SumOf(snapshot.operations, operation.account)
                                                  + SumOf(writes.operations + [operation], operation.account)))
  {
    hide RunLines;
    var three := SaveLines(operation);
    assert lines[n] == three[0] && lines[n + 1] == three[1] && lines[n + 2] == three[2];
    var first := writes.(operations := writes.operations + [operation]);
    InsertOperationRuns(cfg, snapshot, lines, n, writes, operation);
    SumByAppend(snapshot.operations, first.operations, AmountOn(operation.account));
    var sum := SumOf(Merge(snapshot, first).operations, operation.account);
    UpsertRuns(cfg, snapshot, lines, n + 1, first, operation.account, sum);
    ReadBackRuns(cfg, snapshot, lines, n + 2, first.(balances := first.balances[operation.account := sum]), operation);
  }

  lemma InsertOperationRuns(cfg: Config, snapshot: Tables, lines: seq<Line>, n: nat, writes: Tables,
                            operation: Operation)
    requires n < |lines| && lines[n] == Line(InsertOperation(operation), false)
    requires RunLines(cfg, snapshot, lines, n) == Some(writes)
    requires HasAccount(snapshot.accounts + writes.accounts, operation.account)
    ensures RunLines(cfg, snapshot, lines, n + 1) == Some(writes.(operations := writes.operations + [operation]))
  {
  }

  lemma UpsertRuns(cfg: Config, snapshot: Tables, lines: seq<Line>, n: nat, writes: Tables, id: Id, sum: int64)
    requires n < |lines| && lines[n] == Line(UpsertBalance(id), false)
    requires RunLines(cfg, snapshot, lines, n) == Some(writes)
    requires HasAccount(snapshot.accounts + writes.accounts, id)
    requires sum == SumOf(Merge(snapshot, writes).operations, id)
    ensures RunLines(cfg, snapshot, lines, n + 1) == Some(writes.(balances := writes.balances[id := sum]))
  {
    hide SumOf, HasAccount;
  }

  lemma ReadBackRuns(cfg: Config, snapshot: Tables, lines: seq<Line>, n: nat, writes: Tables, operation: Operation)
    requires n < |lines| && lines[n] == Line(SelectBalance(operation.account), operation.kind.Decrease?)
    requires RunLines(cfg, snapshot, lines, n) == Some(writes)
    requires operation.account in writes.balances
    requires operation.kind.Decrease? ==> writes.balances[operation.account] >= 0
    ensures RunLines(cfg, snapshot, lines, n + 1) == Some(writes)
  {
  }

  lemma InsertTransferRuns(cfg: Config, snapshot: Tables, lines: seq<Line>, n: nat, writes: Tables, row: CoinTransfer)
    requires n < |lines| && lines[n] == Line(InsertTransfer(row), false)
    requires RunLines(cfg, snapshot, lines, n) == Some(writes)
    requires row.amount > 0 && HasAccount(snapshot.accounts, row.owner)
             && HasAccount(snapshot.accounts, row.counterparty)
    ensures RunLines(cfg, snapshot, lines, n + 1) == Some(writes.(transfers := writes.transfers + [row]))
  {
    HasAccountAppend(snapshot.accounts, writes.accounts, row.owner);
    HasAccountAppend(snapshot.accounts, writes.accounts, row.counterparty);
  }

  lemma InsertPurchaseRuns(cfg: Config, snapshot: Tables, lines: seq<Line>, n: nat, writes: Tables, row: ShopPurchase)
    requires n < |lines| && lines[n] == Line(InsertPurchase(row), false)
    requires RunLines(cfg, snapshot, lines, n) == Some(writes)
    requires row.quantity > 0 && HasAccount(snapshot.accounts, row.account) && HasItem(cfg.items, row.item)
    ensures RunLines(cfg, snapshot, lines, n + 1).Some?
  {
    HasAccountAppend(snapshot.accounts, writes.accounts, row.account);
  }

  lemma HasAccountAppend(accounts: seq<Account>, more: seq<Account>, id: Id)
    requires HasAccount(accounts, id)
    ensures HasAccount(accounts + more, id)
  {
    var a :| a in accounts && a.id == id;
    assert a in accounts + more;
  }

  /** What the two postings of a served transfer say about the sums. */
  lemma ServedSendFits(tables: Tables, c: nat, req: Request, target: Id)
    requires req.SendCoins? && BalancesAreSums(tables) && ServeSend(tables, c, req).Some?
    requires target == FindAccount(tables.accounts, req.target).value.id
    ensures var x := SumOf(tables.operations, req.owner) + SumOf([Debit(c, req)], req.owner);
            var y := SumOf(tables.operations, target) + SumOf([Debit(c, req), Credit(c, req, target)], target);
            FitsInt64(x) && x >= 0 && FitsInt64(y)
    ensures req.amount > 0 && HasAccount(tables.accounts, req.owner) && HasAccount(tables.accounts, target)
  {
    hide KeyFree;
    var debit, credit := Debit(c, req), Credit(c, req, target);
    SumByTwo(debit, credit, AmountOn(req.owner));
    SumByTwo(debit, credit, AmountOn(target));
    assert BalanceOf(Post(tables, debit).value, target) == BalanceOf(tables, target);
  }

  lemma SendRuns(cfg: Config, tables: Tables, c: nat, req: Request, target: Id)
    requires req.SendCoins? && BalancesAreSums(tables) && ServeSend(tables, c, req).Some?
    requires target == FindAccount(tables.accounts, req.target).value.id
    ensures RunLines(cfg, tables, SendLines(c, req, target), 8).Some?
  {
    hide RunLines, KeyFree, ServeSend, SumOf, BalancesAreSums, HasAccount;
    var lines := SendLines(c, req, target);
    var debit, credit := Debit(c, req), Credit(c, req, target);
    NoLines(cfg, tables, lines);
    ServedSendFits(tables, c, req, target);
    assert lines[0..3] == SaveLines(debit) && lines[3..6] == SaveLines(credit);
    assert [] + [debit] == [debit] && [debit] + [credit] == [debit, credit];
    HasAccountAppend(tables.accounts, [], req.owner);
    HasAccountAppend(tables.accounts, [], target);
    SaveRuns(cfg, tables, lines, 0, EMPTY, debit);
    var one := WithOperation(EMPTY, debit, SumOf(tables.operations, req.owner) + SumOf([debit], req.owner));
    SaveRuns(cfg, tables, lines, 3, one, credit);
    var two := WithOperation(one, credit, SumOf(tables.operations, target) + SumOf([debit, credit], target));
    InsertTransferRuns(cfg, tables, lines, 6, two, SendingRow(c, req, target));
    var three := two.(transfers := two.transfers + [SendingRow(c, req, target)]);
    InsertTransferRuns(cfg, tables, lines, 7, three, ReceivingRow(c, req, target));
  }

  lemma BuyRuns(cfg: Config, tables: Tables, c: nat, req: Request, item: ShopItem)
    requires req.Buy? && BalancesAreSums(tables) && ServeBuy(cfg, tables, c, req).Some?
    requires FindItem(cfg.items, req.item) == Some(item)
    ensures RunLines(cfg, tables, BuyLines(c, req, item), 4).Some?
  {
    hide RunLines, KeyFree;
    var lines := BuyLines(c, req, item);
    var payment := Payment(c, req, item);
    NoLines(cfg, tables, lines);
    assert lines[0..3] == SaveLines(payment);
    assert [] + [payment] == [payment];
    SumByTwo(payment, payment, AmountOn(req.buyer));
    HasAccountAppend(tables.accounts, [], req.buyer);
    SaveRuns(cfg, tables, lines, 0, EMPTY, payment);
    var one := WithOperation(EMPTY, payment, SumOf(tables.operations, req.buyer) + SumOf([payment], req.buyer));
    InsertPurchaseRuns(cfg, tables, lines, 3, one, PurchaseRow(c, req, item));
  }

  lemma SignUpRuns(cfg: Config, tables: Tables, c: nat, req: Request)
    requires req.SignIn? && req.hash.Some? && BalancesAreSums(tables) && SumOf(tables.operations, Uuid(c, 0)) == 0
    requires FindAccount(tables.accounts, req.username).None? && ServeSignIn(cfg, tables, c, req).Some?
    ensures var lines := SignUpLines(cfg, c, req); RunLines(cfg, tables, lines, |lines|).Some?
  {
    hide RunLines, SumOf;
    var lines := SignUpLines(cfg, c, req);
    var created := EMPTY.(accounts := [AccountOf(c, req)]);
    assert RunLines(cfg, tables, lines, 1) == Some(created) by {
      InsertAccountRuns(cfg, tables, lines, AccountOf(c, req));
    }
    if cfg.newAccountAmount > 0 {
      var welcome := Welcome(cfg, c);
      assert lines[1..4] == SaveLines(welcome);
      assert [] + [welcome] == [welcome];
      SumOfOne(welcome);
      assert AccountOf(c, req) in tables.accounts + created.accounts;
      SaveRuns(cfg, tables, lines, 1, created, welcome);
    }
  }

  lemma SumOfOne(operation: Operation)
    ensures SumOf([operation], operation.account) == operation.amount
  {
    SumByTwo(operation, operation, AmountOn(operation.account));
  }

  lemma InsertAccountRuns(cfg: Config, snapshot: Tables, lines: seq<Line>, account: Account)
    requires lines != [] && lines[0] == Line(InsertAccount(account), false)
    requires FindAccount(snapshot.accounts, account.username).None?
    ensures RunLines(cfg, snapshot, lines, 1) == Some(EMPTY.(accounts := [account]))
  {
    assert RunLines(cfg, snapshot, lines, 0) == Some(EMPTY);
    assert snapshot.accounts + [] == snapshot.accounts && EMPTY.accounts + [account] == [account];
  }

  /** Whatever the serial ledger serves, the statements of the request complete on the same tables. */
  lemma ServedCompletes(cfg: Config, tables: Tables, c: nat, req: Request) returns (writes: Tables, reply: Reply)
    requires BalancesAreSums(tables) && SumOf(tables.operations, Uuid(c, 0)) == 0
    requires Serve(cfg, tables, c, req).Some?
    ensures Completes(cfg, c, req, tables, writes, reply)
  {
    hide RunLines;
    match req {
      case SignIn(username, _) =>
        if FindAccount(tables.accounts, username).None? {
          SignUpRuns(cfg, tables, c, req);
        } else {
          NoLines(cfg, tables, []);
        }
      case SendCoins(target, _, _, _) =>
        SendRuns(cfg, tables, c, req, FindAccount(tables.accounts, target).value.id);
      case Buy(name, _, _, _) =>
        BuyRuns(cfg, tables, c, req, FindItem(cfg.items, name).value);
    }
    var plan := PlanOf(cfg, c, req, tables).value;
    reply := plan.reply;
    writes := RunLines(cfg, tables, plan.lines, |plan.lines|).value;
  }

  // ----- running a request while the others hold nothing -----

  /** No other live request holds a balance row or a username that is among these rows. */
  ghost predicate Unheld(w: World, c: nat, writes: Tables) {
    forall d :: d in w.clients && d != c && Holding(w.clients[d]) ==>
      && w.clients[d].tx.writes.balances.Keys !! writes.balances.Keys
      && forall a :: a in writes.accounts ==> !WritesUsername(w.clients[d].tx.writes.accounts, a.username)
  }

  /** Nothing a transaction with that snapshot wrote was written by a commit since. */
  ghost predicate Unchallenged(w: World, began: nat, writes: Tables) {
    && (forall id :: id in writes.balances ==> Version(w, id) <= began)
    && (forall a :: a in writes.accounts ==> FindAccount(Committed(w).accounts, a.username).None?)
  }

  predicate InRows(stmt: Stmt, writes: Tables) {
    match stmt
    case UpsertBalance(id) => id in writes.balances
    case InsertAccount(account) => account in writes.accounts
    case _ => true
  }

  /** The rows that one more line writes are added to those already written. */
  lemma LineAddsRows(cfg: Config, snapshot: Tables, writes: Tables, line: Line, after: Tables)
    requires RunLine(cfg, snapshot, writes, line) == Some(after)
    ensures InRows(line.stmt, after)
    ensures writes.balances.Keys <= after.balances.Keys && writes.accounts <= after.accounts
  {
  }

  /** The rows a statement locks are among those the whole plan writes. */
  lemma {:induction false} LinesAreInRows(cfg: Config, snapshot: Tables, lines: seq<Line>, k: nat, n: nat)
    requires k < n <= |lines| && RunLines(cfg, snapshot, lines, n).Some?
    ensures InRows(lines[k].stmt, RunLines(cfg, snapshot, lines, n).value)
  {
    hide RunLine;
    LineAddsRows(cfg, snapshot, RunLines(cfg, snapshot, lines, n - 1).value, lines[n - 1],
                 RunLines(cfg, snapshot, lines, n).value);
    if k < n - 1 {
      LinesAreInRows(cfg, snapshot, lines, k, n - 1);
    }
  }

  function AtStage(w: World, c: nat, client: Client): World {
    w.(clients := w.clients[c := client])
  }

  lemma NotBlocked(w: World, c: nat, stmt: Stmt, writes: Tables)
    requires Unheld(w, c, writes) && InRows(stmt, writes)
    ensures !Blocked(w, c, stmt)
  {
  }

  /** Only upserts and sign-ups ever wait. */
  lemma NeverWaits(w: World, c: nat, stmt: Stmt)
    requires !stmt.UpsertBalance? && !stmt.InsertAccount?
    ensures !Blocked(w, c, stmt)
  {
  }

  /** To an unchallenged request the server behaves as if nothing had been committed since its snapshot. */
  lemma PerformsOnSnapshot(cfg: Config, w: World, tx: Tx, stmt: Stmt, writes: Tables)
    requires InRows(stmt, writes) && Unchallenged(w, tx.began, writes)
    ensures Perform(cfg, w, tx, stmt) == Execute(cfg, At(w.past, tx.began), tx.writes, stmt)
  {
    hide Execute;
  }

  lemma LineAdvances(cfg: Config, w: World, c: nat, stage: Stage, tx: Tx, response: Response, after: Tables)
    requires stage.Writing? && stage.pos < |stage.lines|
    requires Execute(cfg, At(w.past, tx.began), tx.writes, stage.lines[stage.pos].stmt) == Fine(after, response)
    requires RunLine(cfg, At(w.past, tx.began), tx.writes, stage.lines[stage.pos]) == Some(after)
    ensures AfterLine(stage, response) == Onward(stage)
  {
  }

  /** One statement of an unchallenged request. */
  lemma LineRuns(cfg: Config, w: World, c: nat, client: Client, writes: Tables) returns (after: Tables)
    requires client.stage.Writing? && client.stage.pos < |client.stage.lines| && client.tx.status.Active?
    requires var lines, snapshot := client.stage.lines, At(w.past, client.tx.began);
             && RunLines(cfg, snapshot, lines, client.stage.pos) == Some(client.tx.writes)
             && RunLines(cfg, snapshot, lines, |lines|) == Some(writes)
    requires Unheld(w, c, writes) && Unchallenged(w, client.tx.began, writes)
    ensures RunLines(cfg, At(w.past, client.tx.began), client.stage.lines, client.stage.pos + 1) == Some(after)
    ensures Enabled(AtStage(w, c, client), Exec(c, Normal(true)))
    ensures Next(cfg, AtStage(w, c, client), Exec(c, Normal(true)))
         == AtStage(w, c, Client(client.req, Onward(client.stage), client.tx.(writes := after)))
  {
    hide Blocked, Unheld, Unchallenged, Perform, Execute, AfterLine, InRows;
    var lines, pos, tx := client.stage.lines, client.stage.pos, client.tx;
    var snapshot := At(w.past, tx.began);
    LinesAreInRows(cfg, snapshot, lines, pos, |lines|);
    EarlierLinesSucceed(cfg, snapshot, lines, pos + 1, |lines|);
    after := RunLines(cfg, snapshot, lines, pos + 1).value;
    var here := AtStage(w, c, client);
    NotBlocked(here, c, lines[pos].stmt, writes) by { StillUnheld(w, c, client, writes); }
    PerformsOnSnapshot(cfg, here, tx, lines[pos].stmt, writes) by { StillUnchallenged(w, c, client, writes); }
    var fine := Execute(cfg, snapshot, tx.writes, lines[pos].stmt);
    LineAdvances(cfg, w, c, client.stage, tx, fine.response, after);
  }

  lemma StillUnheld(w: World, c: nat, client: Client, writes: Tables)
    requires Unheld(w, c, writes)
    ensures Unheld(AtStage(w, c, client), c, writes)
  {
  }

  lemma StillUnchallenged(w: World, c: nat, client: Client, writes: Tables)
    requires Unchallenged(w, client.tx.began, writes)
    ensures Unchallenged(AtStage(w, c, client), client.tx.began, writes)
  {
  }

  /** From any point of its statement list an unchallenged request can go on to the end. */
  lemma {:induction false} LinesRun(cfg: Config, w: World, c: nat, client: Client, writes: Tables)
    returns (acts: seq<Action>)
    requires client.stage.Writing? && client.stage.pos < |client.stage.lines| && client.tx.status.Active?
    requires var lines, snapshot := client.stage.lines, At(w.past, client.tx.began);
             && RunLines(cfg, snapshot, lines, client.stage.pos) == Some(client.tx.writes)
             && RunLines(cfg, snapshot, lines, |lines|) == Some(writes)
    requires Unheld(w, c, writes) && Unchallenged(w, client.tx.began, writes)
    ensures Leads(cfg, AtStage(w, c, client), acts,
                  AtStage(w, c, Client(client.req, Leaving(Success(client.stage.reply)), client.tx.(writes := writes))))
    ensures forall act :: act in acts ==> act.client == c
    decreases |client.stage.lines| - client.stage.pos
  {
    hide RunLines, Unheld, Unchallenged, Enabled, Next, AtStage;
    var after := LineRuns(cfg, w, c, client, writes);
    var client' := Client(client.req, Onward(client.stage), client.tx.(writes := after));
    var rest := [];
    if client.stage.pos + 1 < |client.stage.lines| {
      rest := LinesRun(cfg, w, c, client', writes);
    }
    acts := [Exec(c, Normal(true))] + rest;
    assert acts[1..] == rest;
  }

  /** One lookup by a request that has written nothing. */
  lemma LookupRuns(cfg: Config, w: World, c: nat, client: Client)
    requires Issues(client.stage, client.req) && !client.stage.Writing?
    requires client.tx.status.Active? && client.tx.writes == EMPTY
    ensures var snapshot := At(w.past, client.tx.began);
            var act, here := Exec(c, Normal(true)), AtStage(w, c, client);
            && Execute(cfg, snapshot, EMPTY, NextStmt(client.stage, client.req)).Fine?
            && var response := Execute(cfg, snapshot, EMPTY, NextStmt(client.stage, client.req)).response;
            && Enabled(here, act)
            && Next(cfg, here, act)
               == AtStage(w, c, client.(stage := Advance(cfg, c, client.req, client.stage, response)))
  {
    NeverWaits(AtStage(w, c, client), c, NextStmt(client.stage, client.req));
  }

  /** The state of a request that has decided what to write. */
  function Decided(req: Request, plan: Plan, tx: Tx): Client {
    Client(req, if plan.lines == [] then Leaving(Success(plan.reply)) else Writing(plan.lines, 0, plan.reply), tx)
  }

  /** The lookup of a key that is free leads on to the deciding lookup. */
  lemma KeyLookupRuns(cfg: Config, w: World, c: nat, req: Request, tx: Tx)
    requires tx.status.Active? && tx.writes == EMPTY && FirstStage(req).CheckKey? && KeyFree(At(w.past, tx.began), req)
    ensures Leads(cfg, AtStage(w, c, Client(req, CheckKey, tx)), [Exec(c, Normal(true))],
                  AtStage(w, c, Client(req, DecidingStage(req), tx)))
  {
    hide Enabled, Next;
    MergeEmpty(At(w.past, tx.began));
    LookupRuns(cfg, w, c, Client(req, CheckKey, tx));
    assert [Exec(c, Normal(true))][1..] == [];
  }

  function DecidingStage(req: Request): Stage {
    if req.Buy? then FindByItemName else FindByUsername
  }

  /** The lookup that decides what to write. */
  lemma DecidingLookupRuns(cfg: Config, w: World, c: nat, req: Request, tx: Tx)
    requires tx.status.Active? && tx.writes == EMPTY && PlanOf(cfg, c, req, At(w.past, tx.began)).Some?
    ensures Leads(cfg, AtStage(w, c, Client(req, DecidingStage(req), tx)), [Exec(c, Normal(true))],
                  AtStage(w, c, Decided(req, PlanOf(cfg, c, req, At(w.past, tx.began)).value, tx)))
  {
    hide Enabled, Next;
    MergeEmpty(At(w.past, tx.began));
    LookupRuns(cfg, w, c, Client(req, DecidingStage(req), tx));
    assert [Exec(c, Normal(true))][1..] == [];
  }

  /** The lookups of a request whose key is free and whose plan exists. */
  lemma LookupsRun(cfg: Config, w: World, c: nat, req: Request, tx: Tx) returns (acts: seq<Action>)
    requires tx.status.Active? && tx.writes == EMPTY
    requires KeyFree(At(w.past, tx.began), req) && PlanOf(cfg, c, req, At(w.past, tx.began)).Some?
    ensures Leads(cfg, AtStage(w, c, Client(req, FirstStage(req), tx)), acts,
                  AtStage(w, c, Decided(req, PlanOf(cfg, c, req, At(w.past, tx.began)).value, tx)))
    ensures forall act :: act in acts ==> act.client == c
  {
    hide PlanOf, KeyFree, Decided, AtStage, Leads;
    acts := [Exec(c, Normal(true))];
    DecidingLookupRuns(cfg, w, c, req, tx);
    if FirstStage(req).CheckKey? {
      KeyLookupRuns(cfg, w, c, req, tx);
      LeadsAppend(cfg, AtStage(w, c, Client(req, CheckKey, tx)), acts,
                  AtStage(w, c, Client(req, DecidingStage(req), tx)),
                  acts, AtStage(w, c, Decided(req, PlanOf(cfg, c, req, At(w.past, tx.began)).value, tx)));
      acts := acts + acts;
    }
  }

  /**
   A request that completes against its snapshot and is unchallenged, and whose rows nobody else holds, can run to its
   end and commit, whatever else was committed since the snapshot and whatever other rows are held.
   */
  lemma UnchallengedCommits(cfg: Config, w: World, c: nat, req: Request, began: nat, writes: Tables, reply: Reply)
    returns (acts: seq<Action>, w': World)
    requires c in w.clients && w.clients[c] == Client(req, FirstStage(req), Tx(began, EMPTY, Active))
    requires Completes(cfg, c, req, At(w.past, began), writes, reply)
    requires Unheld(w, c, writes) && Unchallenged(w, began, writes)
    ensures Leads(cfg, w, acts, w') && forall act :: act in acts ==> act.client == c
    ensures w'.log == w.log + [Entry(c, req, began, writes, reply)] && w'.past == w.past + [Merge(Committed(w), writes)]
    ensures w'.clients == w.clients[c := Client(req, Ended(Success(reply)), Tx(began, writes, Active))]
    ensures forall id :: id !in writes.balances ==> Version(w', id) == Version(w, id)
  {
    hide Enabled, RunLines, PlanOf, KeyFree;
    var snapshot, tx := At(w.past, began), Tx(began, EMPTY, Active);
    var plan := PlanOf(cfg, c, req, snapshot).value;
    assert AtStage(w, c, w.clients[c]) == w;
    acts := LookupsRun(cfg, w, c, req, tx);
    var decided := Decided(req, plan, tx);
    var leaving := Client(req, Leaving(Success(reply)), tx.(writes := writes));
    NoLines(cfg, snapshot, plan.lines);
    if plan.lines != [] {
      var more := LinesRun(cfg, w, c, decided, writes);
      LeadsAppend(cfg, w, acts, AtStage(w, c, decided), more, AtStage(w, c, leaving));
      acts := acts + more;
    }
    assert Leads(cfg, w, acts, AtStage(w, c, leaving));
    w' := CommitsNow(cfg, AtStage(w, c, leaving), c);
    LeadsAppend(cfg, w, acts, AtStage(w, c, leaving), [Commit(c, true)], w');
    acts := acts + [Commit(c, true)];
  }

  lemma CommitsNow(cfg: Config, w: World, c: nat) returns (w': World)
    requires c in w.clients && w.clients[c].stage.Leaving? && w.clients[c].stage.outcome.Success?
             && w.clients[c].tx.status.Active?
    ensures Leads(cfg, w, [Commit(c, true)], w')
    ensures w'.log == w.log + [EntryOf(c, w.clients[c])]
    ensures w'.past == w.past + [Merge(Committed(w), w.clients[c].tx.writes)]
    ensures w'.clients == w.clients[c := w.clients[c].(stage := Ended(w.clients[c].stage.outcome))]
    ensures forall id :: id !in w.clients[c].tx.writes.balances ==> Version(w', id) == Version(w, id)
  {
    w' := Next(cfg, w, Commit(c, true));
    assert [Commit(c, true)][1..] == [];
  }

  // ----- a request that has the ledger to itself -----

  ghost predicate Alone(acts: seq<Action>, c: nat) {
    forall i :: 0 <= i < |acts| ==> acts[i].client == c
  }

  /** A new request c can run from w, with nobody else moving, and commit, which leads to w'. */
  ghost predicate CommitsAlone(cfg: Config, w: World, c: nat, req: Request, w': World) {
    exists acts :: Alone(acts, c) && Leads(cfg, w, [Begin(c, req)] + acts, w') && |w'.log| == |w.log| + 1
  }

  /** A request that runs alone commits against the state it began with. */
  lemma {:induction false} AloneCommitsOnItsSnapshot(cfg: Config, w: World, c: nat, acts: seq<Action>, w': World)
    requires c in w.clients && Alone(acts, c) && Leads(cfg, w, acts, w') && |w'.log| == |w.log| + 1
    ensures w'.log[..|w.log|] == w.log
    ensures var e := w'.log[|w.log|]; e.client == c && e.req == w.clients[c].req && e.began == w.clients[c].tx.began
    ensures |w.past| == |w.log| + 1 ==> |w'.past| == |w.past| + 1 && w'.past[..|w.past|] == w.past
    decreases |acts|
  {
    if acts != [] {
      var next := Next(cfg, w, acts[0]);
      if acts[0].Commit? {
        EndedStaysOut(cfg, next, c, acts[1..], w');
      } else {
        AloneCommitsOnItsSnapshot(cfg, next, c, acts[1..], w');
      }
    }
  }

  lemma EndedStaysOut(cfg: Config, w: World, c: nat, acts: seq<Action>, w': World)
    requires c in w.clients && w.clients[c].stage.Ended? && Alone(acts, c) && Leads(cfg, w, acts, w')
    ensures w' == w
  {
  }

  /** A commit on an up-to-date snapshot is what the serial ledger does. */
  lemma CommittedAloneIsServed(cfg: Config, acts: seq<Action>, w: World, c: nat, req: Request, w': World)
    requires Reached(cfg, acts, w) && c !in w.clients && CommitsAlone(cfg, w, c, req, w')
    ensures |w'.log| == |w.log| + 1
    ensures Serve(cfg, Committed(w), c, req) == Some(Served(Committed(w'), w'.log[|w.log|].reply))
  {
    hide Serve, Enabled, VersionsOk, ClientOk, Apart, RunLines, PlanOf;
    ReachedInv(cfg, acts, w);
    var more :| Alone(more, c) && Leads(cfg, w, [Begin(c, req)] + more, w') && |w'.log| == |w.log| + 1;
    LeadsAppend(cfg, INITIAL, acts, w, [Begin(c, req)] + more, w');
    ReachedInv(cfg, acts + ([Begin(c, req)] + more), w');
    assert ([Begin(c, req)] + more)[1..] == more;
    var n, begun := |w.log|, Next(cfg, w, Begin(c, req));
    AloneCommitsOnItsSnapshot(cfg, begun, c, more, w');
    assert w'.past[n] == w'.past[..|w.past|][n];
    assert Justified(cfg, w'.past, w'.log, n);
    EntryServes(cfg, w'.past, w'.log, n);
  }

  lemma CommittedTables(cfg: Config, acts: seq<Action>, w: World, c: nat)
    requires Reached(cfg, acts, w) && c !in w.clients
    ensures BalancesAreSums(Committed(w)) && SumOf(Committed(w).operations, Uuid(c, 0)) == 0
  {
    ReachedInv(cfg, acts, w);
    forall id { BalanceIsSum(cfg, w.past, w.log, |w.log|, id); }
    NewAccountHasNoOperations(cfg, w.past, w.log, c, |w.log|);
  }

  /** In an invariant state nothing is challenged from the newest snapshot. */
  lemma NewestIsUnchallenged(cfg: Config, w: World, c: nat, req: Request, writes: Tables, reply: Reply)
    requires Inv(cfg, w) && Completes(cfg, c, req, Committed(w), writes, reply)
    ensures Unchallenged(w, |w.log|, writes)
  {
    CompletesMeansPosted(cfg, c, req, Committed(w), writes, reply);
    forall id ensures Version(w, id) <= |w.log| {
      assert Untouched(w.log, id, |w.log|, |w.log|);
    }
  }

  /** No other live request holds a row that this one would write. */
  ghost predicate FreeFor(cfg: Config, w: World, c: nat, req: Request) {
    forall writes, reply :: Completes(cfg, c, req, Committed(w), writes, reply) ==> Unheld(w, c, writes)
  }

  lemma ServedCommitsAlone(cfg: Config, acts: seq<Action>, w: World, c: nat, req: Request) returns (w': World)
    requires Reached(cfg, acts, w) && FreeFor(cfg, w, c, req) && c !in w.clients
    requires Serve(cfg, Committed(w), c, req).Some?
    ensures CommitsAlone(cfg, w, c, req, w')
    ensures w'.clients.Keys == w.clients.Keys + {c} && w'.clients[c].req == req && Landed(w'.clients[c].stage)
    ensures forall d :: d in w.clients ==> w'.clients[d] == w.clients[d]
  {
    hide Serve, BalancesAreSums, SumOf, RunLines, PlanOf, VersionsOk, ClientOk, Apart, History.Valid;
    CommittedTables(cfg, acts, w, c);
    ReachedInv(cfg, acts, w);
    var writes, reply := ServedCompletes(cfg, Committed(w), c, req);
    NewestIsUnchallenged(cfg, w, c, req, writes, reply);
    var begun := Next(cfg, w, Begin(c, req));
    var more;
    more, w' := UnchallengedCommits(cfg, begun, c, req, |w.log|, writes, reply);
    assert ([Begin(c, req)] + more)[1..] == more;
    assert Leads(cfg, w, [Begin(c, req)] + more, w');
  }

  /**
   The store refines the serial ledger in both directions: after any run, while no other request holds a row it would
   write, a new request can commit if and only if the serial ledger serves it, and then with that result and no other.
   */
  lemma CommitsAloneIffServed(cfg: Config, acts: seq<Action>, w: World, c: nat, req: Request)
    requires Reached(cfg, acts, w) && FreeFor(cfg, w, c, req) && c !in w.clients
    ensures (exists w' :: CommitsAlone(cfg, w, c, req, w')) <==> Serve(cfg, Committed(w), c, req).Some?
    ensures forall w' :: CommitsAlone(cfg, w, c, req, w') ==>
              |w'.log| == |w.log| + 1
              && Serve(cfg, Committed(w), c, req) == Some(Served(Committed(w'), w'.log[|w.log|].reply))
  {
    if Serve(cfg, Committed(w), c, req).Some? {
      var w' := ServedCommitsAlone(cfg, acts, w, c, req);
    }
    forall w' | CommitsAlone(cfg, w, c, req, w')
      ensures |w'.log| == |w.log| + 1
      ensures Serve(cfg, Committed(w), c, req) == Some(Served(Committed(w'), w'.log[|w.log|].reply))
    {
      CommittedAloneIsServed(cfg, acts, w, c, req, w');
    }
  }

  // ----- the bound on identity keys is tight -----

  /** Two requests with one snapshot that write different accounts can both commit. */
  lemma BothCommit(cfg: Config, w: World, c: nat, d: nat, first: Request, second: Request,
                   one: Tables, two: Tables, x: Reply, y: Reply)
    returns (acts: seq<Action>, w': World)
    requires |w.past| == |w.log| + 1 && Unheld(w, c, one) && Unheld(w, d, two)
    requires c != d && c !in w.clients && d !in w.clients
    requires (first.SendCoins? ==> first.amount > 0) && (second.SendCoins? ==> second.amount > 0)
    requires Completes(cfg, c, first, Committed(w), one, x) && Completes(cfg, d, second, Committed(w), two, y)
    requires Unchallenged(w, |w.log|, one) && Unchallenged(w, |w.log|, two)
    requires one.balances.Keys !! two.balances.Keys && two.accounts == []
    ensures Leads(cfg, w, acts, w')
    ensures w'.log == w.log + [Entry(c, first, |w.log|, one, x), Entry(d, second, |w.log|, two, y)]
  {
    hide Completes, Enabled, Next;
    var n := |w.log|;
    var w0, beginnings := BothBegin(cfg, w, c, d, first, second);
    var actsC, w1 := UnchallengedCommits(cfg, w0, c, first, n, one, x);
    assert At(w1.past, n) == Committed(w);
    var actsD, w2 := UnchallengedCommits(cfg, w1, d, second, n, two, y);
    LeadsAppend(cfg, w, beginnings, w0, actsC, w1);
    LeadsAppend(cfg, w, beginnings + actsC, w1, actsD, w2);
    acts, w' := beginnings + actsC + actsD, w2;
  }

  /**
   Two requests with one key that complete on the same tables and write different accounts can both commit when they
   overlap; the committed requests then have no serial replay.
   */
  lemma OneKeyCanCommitTwice(cfg: Config, acts: seq<Action>, w: World, c: nat, d: nat, first: Request, second: Request,
                             one: Tables, two: Tables, x: Reply, y: Reply)
    returns (more: seq<Action>, w': World)
    requires Reached(cfg, acts, w) && Unheld(w, c, one) && Unheld(w, d, two)
    requires c != d && c !in w.clients && d !in w.clients
    requires SameKey(first, second)
    requires Completes(cfg, c, first, Committed(w), one, x) && Completes(cfg, d, second, Committed(w), two, y)
    requires one.balances.Keys !! two.balances.Keys
    ensures Reached(cfg, acts + more, w')
    ensures w'.log == w.log + [Entry(c, first, |w.log|, one, x), Entry(d, second, |w.log|, two, y)]
    ensures Replay(cfg, w'.log, |w'.log|) != Some(Committed(w'))
  {
    hide Completes, Replay, ClientOk, Unchallenged, Unheld, VersionsOk, Justified, Enabled, Next;
    ReachedInv(cfg, acts, w);
    NewestIsUnchallenged(cfg, w, c, first, one, x);
    NewestIsUnchallenged(cfg, w, d, second, two, y);
    SharersAddNoAccounts(cfg, c, first, second, Committed(w), one, x);
    SharersAddNoAccounts(cfg, d, second, first, Committed(w), two, y);
    more, w' := BothCommit(cfg, w, c, d, first, second, one, two, x, y);
    LeadsAppend(cfg, INITIAL, acts, w, more, w');
    SerialisableIff(cfg, acts + more, w');
    assert SameKey(w'.log[|w.log|].req, w'.log[|w.log| + 1].req);
  }

  lemma SharersAddNoAccounts(cfg: Config, c: nat, req: Request, other: Request, snapshot: Tables, writes: Tables,
                             reply: Reply)
    requires Completes(cfg, c, req, snapshot, writes, reply) && (SameKey(req, other) || SameKey(other, req))
    ensures writes.accounts == []
    ensures req.SendCoins? ==> req.amount > 0
  {
    CompletesMeansPosted(cfg, c, req, snapshot, writes, reply);
  }

  lemma BothBegin(cfg: Config, w: World, c: nat, d: nat, first: Request, second: Request)
    returns (w': World, acts: seq<Action>)
    requires c != d && c !in w.clients && d !in w.clients
    requires (first.SendCoins? ==> first.amount > 0) && (second.SendCoins? ==> second.amount > 0)
    ensures acts == [Begin(c, first), Begin(d, second)] && Leads(cfg, w, acts, w')
    ensures w' == w.(clients := w.clients[c := Client(first, FirstStage(first), Tx(|w.log|, EMPTY, Active))]
                                         [d := Client(second, FirstStage(second), Tx(|w.log|, EMPTY, Active))])
  {
    acts := [Begin(c, first), Begin(d, second)];
    var middle := Next(cfg, w, acts[0]);
    w' := Next(cfg, middle, acts[1]);
    assert acts[1..] == [acts[1]] && [acts[1]][1..] == [];
    assert Leads(cfg, middle, [acts[1]], w');
  }
}
