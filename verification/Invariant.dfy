/** The invariant of the store, and its preservation by every action of every request. */
module Invariant {
  import opened Schema
  import opened Failures
  import opened Program
  import opened Store
  import opened History
  import opened Posting

  /** A client in the middle of its request has done exactly what its snapshot justifies. */
  ghost predicate StageOk(cfg: Config, snapshot: Tables, c: nat, client: Client) {
    var Client(req, stage, tx) := client;
    && (req.SendCoins? ==> req.amount > 0)
    && match stage
       case CheckKey => tx.status.Active? && tx.writes == EMPTY && !req.SignIn? && req.key.Some?
       case FindByUsername => tx.status.Active? && tx.writes == EMPTY && !req.Buy? && KeyFree(snapshot, req)
       case FindByItemName => tx.status.Active? && tx.writes == EMPTY && req.Buy? && KeyFree(snapshot, req)
       case Writing(lines, pos, reply) =>
         && pos < |lines|
         && KeyFree(snapshot, req)
         && PlanOf(cfg, c, req, snapshot) == Some(Plan(lines, reply))
         && (if tx.status.Active? then RunLines(cfg, snapshot, lines, pos) == Some(tx.writes)
             else pos > 0 && lines[pos - 1].stmt.UpsertBalance?)
       case Leaving(Success(reply)) =>
         tx.status.Active? && Completes(cfg, c, req, snapshot, tx.writes, reply)
       case Leaving(Refused(f)) => tx.status.Active? ==> Refusal(cfg, snapshot, req, f)
       case Leaving(Unconfirmed(_)) => false
       case _ => true
  }

  /** What a live transaction wrote is still unknown to every commit since its snapshot. */
  ghost predicate LocksOk(past: seq<Tables>, log: seq<Entry>, tx: Tx) {
    && (forall id :: id in tx.writes.balances ==> Untouched(log, id, tx.began, |log|))
    && (forall a :: a in tx.writes.accounts ==> FindAccount(At(past, |log|).accounts, a.username).None?)
  }

  /** A client is in the log if and only if its commit took effect, with the request and the reply recorded there. */
  ghost predicate LogAgrees(log: seq<Entry>, c: nat, client: Client) {
    && (Landed(client.stage) <==> exists i :: 0 <= i < |log| && log[i].client == c)
    && (forall i :: 0 <= i < |log| && log[i].client == c ==>
          log[i].req == client.req && client.stage.outcome.reply == log[i].reply)
  }

  ghost predicate ClientOk(cfg: Config, past: seq<Tables>, log: seq<Entry>, c: nat, client: Client) {
    && client.tx.began <= |log|
    && (!client.stage.Ended? ==> StageOk(cfg, At(past, client.tx.began), c, client))
    && (Holding(client) ==> LocksOk(past, log, client.tx))
    && LogAgrees(log, c, client)
  }

  /** Two live transactions never hold the same row. */
  ghost predicate Apart(x: Client, y: Client) {
    Holding(x) && Holding(y) ==>
      && x.tx.writes.balances.Keys !! y.tx.writes.balances.Keys
      && (forall a :: a in x.tx.writes.accounts ==> !WritesUsername(y.tx.writes.accounts, a.username))
  }

  /** The version of a balance row is the number of the last commit that wrote it. */
  ghost predicate VersionsOk(w: World) {
    forall id: Id, n: nat :: n <= |w.log| ==> (Version(w, id) <= n <==> Untouched(w.log, id, n, |w.log|))
  }

  ghost predicate Inv(cfg: Config, w: World) {
    && History.Valid(cfg, w.past, w.log)
    && VersionsOk(w)
    && (forall c :: c in w.clients ==> ClientOk(cfg, w.past, w.log, c, w.clients[c]))
    && (forall c, d :: c in w.clients && d in w.clients && c != d ==> Apart(w.clients[c], w.clients[d]))
    && (forall i :: 0 <= i < |w.log| ==> w.log[i].client in w.clients)
  }

  // ----- what plans look like -----

  /** Every upsert in a plan is followed by the read-back of the same balance. */
  lemma PlanShape(cfg: Config, c: nat, req: Request, snapshot: Tables, n: nat)
    requires PlanOf(cfg, c, req, snapshot).Some?
    requires n < |PlanOf(cfg, c, req, snapshot).value.lines|
    requires PlanOf(cfg, c, req, snapshot).value.lines[n].stmt.UpsertBalance?
    ensures n + 1 < |PlanOf(cfg, c, req, snapshot).value.lines|
    ensures PlanOf(cfg, c, req, snapshot).value.lines[n + 1].stmt
         == SelectBalance(PlanOf(cfg, c, req, snapshot).value.lines[n].stmt.id)
  {
  }

  // ----- one statement -----

  /** The first two lines of a plan that pays: its debit, and the payer's balance. */
  lemma PayerBalance(cfg: Config, snapshot: Tables, lines: seq<Line>, debit: Operation, writes: Tables)
    requires |lines| >= 2 && lines[0] == Line(InsertOperation(debit), false)
    requires lines[1] == Line(UpsertBalance(debit.account), false)
    requires RunLines(cfg, snapshot, lines, 2) == Some(writes)
    ensures BalanceOf(Merge(snapshot, writes), debit.account)
         == SumOf(snapshot.operations, debit.account) + debit.amount
  {
    hide RunLines;
    NoLines(cfg, snapshot, lines);
    EarlierLinesSucceed(cfg, snapshot, lines, 1, 2);
    InsertOperationEffect(cfg, snapshot, lines, 0, EMPTY, debit);
    var first := EMPTY.(operations := EMPTY.operations + [debit]);
    UpsertEffect(cfg, snapshot, lines, 1, first, debit.account);
    SumByAppend(snapshot.operations, [debit], AmountOn(debit.account));
    SumByTwo(debit, debit, AmountOn(debit.account));
    assert EMPTY.operations + [debit] == [debit];
  }

  lemma SendGuard(c: nat, req: Request, target: Id, pos: nat)
    requires req.SendCoins? && pos < |SendLines(c, req, target)| && SendLines(c, req, target)[pos].guarded
    ensures var lines := SendLines(c, req, target);
            && pos == 2 && lines[2].stmt == SelectBalance(req.owner)
            && lines[0] == Line(InsertOperation(Debit(c, req)), false)
            && lines[1] == Line(UpsertBalance(req.owner), false)
  {
  }

  lemma BuyGuard(c: nat, req: Request, item: ShopItem, pos: nat)
    requires req.Buy? && pos < |BuyLines(c, req, item)| && BuyLines(c, req, item)[pos].guarded
    ensures var lines := BuyLines(c, req, item);
            && pos == 2 && lines[2].stmt == SelectBalance(req.buyer)
            && lines[0] == Line(InsertOperation(Payment(c, req, item)), false)
            && lines[1] == Line(UpsertBalance(req.buyer), false)
  {
  }

  /** A guarded read that finds a negative balance has found the payer overdrawn. */
  lemma GuardedRead(cfg: Config, c: nat, req: Request, snapshot: Tables, plan: Plan, pos: nat, writes: Tables)
    requires (req.SendCoins? ==> req.amount > 0) && KeyFree(snapshot, req)
    requires PlanOf(cfg, c, req, snapshot) == Some(plan) && pos < |plan.lines| && plan.lines[pos].guarded
    requires RunLines(cfg, snapshot, plan.lines, pos) == Some(writes)
    requires plan.lines[pos].stmt.SelectBalance? ==> BalanceOf(Merge(snapshot, writes), plan.lines[pos].stmt.id) < 0
    ensures Refusal(cfg, snapshot, req, NotEnoughFunds)
  {
    hide RunLines, SendLines, BuyLines, SumOf, Merge;
    match req
    case SignIn(_, _) =>
      assert false;
    case SendCoins(target, owner, _, _) =>
      var account := FindAccount(snapshot.accounts, target).value;
      SendGuard(c, req, account.id, pos);
      PayerBalance(cfg, snapshot, plan.lines, Debit(c, req), writes);
      assert account in snapshot.accounts;
    case Buy(name, buyer, _, _) =>
      var item := FindItem(cfg.items, name).value;
      BuyGuard(c, req, item, pos);
      PayerBalance(cfg, snapshot, plan.lines, Payment(c, req, item), writes);
      assert item in cfg.items;
  }

  /** A lookup that succeeds leads on as the snapshot says, or to the refusal the snapshot calls for. */
  lemma LookupSucceeds(cfg: Config, snapshot: Tables, c: nat, client: Client, writes: Tables, response: Response)
    requires StageOk(cfg, snapshot, c, client) && client.tx.status.Active?
    requires Issues(client.stage, client.req) && !client.stage.Writing?
    requires Execute(cfg, snapshot, client.tx.writes, NextStmt(client.stage, client.req)) == Fine(writes, response)
    ensures StageOk(cfg, snapshot, c,
                    Client(client.req, Advance(cfg, c, client.req, client.stage, response),
                           client.tx.(writes := writes)))
  {
    MergeEmpty(snapshot);
  }

  lemma WritingSucceeds(cfg: Config, snapshot: Tables, c: nat, client: Client, writes: Tables, response: Response)
    requires StageOk(cfg, snapshot, c, client) && client.tx.status.Active?
    requires Issues(client.stage, client.req) && client.stage.Writing?
    requires Execute(cfg, snapshot, client.tx.writes, NextStmt(client.stage, client.req)) == Fine(writes, response)
    ensures StageOk(cfg, snapshot, c,
                    Client(client.req, Advance(cfg, c, client.req, client.stage, response),
                           client.tx.(writes := writes)))
  {
    hide Refusal, PlanOf, KeyFree;
    var Client(req, Writing(lines, pos, reply), tx) := client;
    assert RunLines(cfg, snapshot, lines, pos + 1) == RunLine(cfg, snapshot, tx.writes, lines[pos]);
    if response.BalanceRow? && lines[pos].guarded && response.balance < 0 {
      GuardedRead(cfg, c, req, snapshot, Plan(lines, reply), pos, tx.writes);
    }
  }

  /** A successful statement inside an active transaction keeps the client in step with its snapshot. */
  lemma LineSucceeds(cfg: Config, snapshot: Tables, c: nat, client: Client, writes: Tables, response: Response)
    requires StageOk(cfg, snapshot, c, client) && client.tx.status.Active?
    requires Issues(client.stage, client.req)
    requires Execute(cfg, snapshot, client.tx.writes, NextStmt(client.stage, client.req)) == Fine(writes, response)
    ensures StageOk(cfg, snapshot, c,
                    Client(client.req, Advance(cfg, c, client.req, client.stage, response),
                           client.tx.(writes := writes)))
  {
    hide StageOk, Execute, Advance;
    if client.stage.Writing? {
      WritingSucceeds(cfg, snapshot, c, client, writes, response);
    } else {
      LookupSucceeds(cfg, snapshot, c, client, writes, response);
    }
  }

  /** A failing statement leads either out of the request or, unread, to the read-back that will fail too. */
  lemma LineFails(cfg: Config, snapshot: Tables, c: nat, client: Client, tx: Tx, error: DbError, atOnce: bool)
    requires StageOk(cfg, snapshot, c, client)
    requires Issues(client.stage, client.req)
    requires !tx.status.Active?
    ensures StageOk(cfg, snapshot, c,
                    Client(client.req, Advance(cfg, c, client.req, client.stage, Response.Failed(error, atOnce)), tx))
  {
    var stage := client.stage;
    if stage.Writing? && stage.lines[stage.pos].stmt.UpsertBalance? {
      PlanShape(cfg, c, client.req, snapshot, stage.pos);
    }
  }

  lemma ExecStageOk(cfg: Config, w: World, c: nat, verdict: Verdict)
    requires Inv(cfg, w) && Enabled(w, Exec(c, verdict))
    ensures StageOk(cfg, At(w.past, w.clients[c].tx.began), c, AfterExec(cfg, w, c, verdict))
  {
    var client := w.clients[c];
    var snapshot := At(w.past, client.tx.began);
    var (tx, response) := Outcomes(cfg, w, client, verdict);
    if tx.status.Active? {
      LineSucceeds(cfg, snapshot, c, client, tx.writes, response);
    } else {
      LineFails(cfg, snapshot, c, client, tx, response.error, response.atOnce);
    }
  }

  /** The rows one successful statement adds to those a transaction holds. */
  lemma RowsAdded(cfg: Config, snapshot: Tables, writes: Tables, stmt: Stmt, writes': Tables, response: Response)
    requires Execute(cfg, snapshot, writes, stmt) == Fine(writes', response)
    ensures forall id :: id in writes'.balances ==> id in writes.balances || stmt == UpsertBalance(id)
    ensures forall a :: a in writes'.accounts ==> a in writes.accounts || stmt == InsertAccount(a)
  {
  }

  /** A statement that gets through writes only rows nobody committed since the snapshot and nobody else holds. */
  lemma ExecWrites(cfg: Config, w: World, c: nat, verdict: Verdict)
    requires Inv(cfg, w) && Enabled(w, Exec(c, verdict))
    requires Holding(AfterExec(cfg, w, c, verdict))
    ensures Holding(w.clients[c]) && AfterExec(cfg, w, c, verdict).tx.began == w.clients[c].tx.began
    ensures !Blocked(w, c, NextStmt(w.clients[c].stage, w.clients[c].req))
    ensures var stmt := NextStmt(w.clients[c].stage, w.clients[c].req);
            var writes := AfterExec(cfg, w, c, verdict).tx.writes;
            && (forall id :: id in writes.balances && id !in w.clients[c].tx.writes.balances ==>
                  stmt == UpsertBalance(id) && Version(w, id) <= w.clients[c].tx.began)
            && (forall a :: a in writes.accounts && a !in w.clients[c].tx.writes.accounts ==>
                  stmt == InsertAccount(a) && FindAccount(Committed(w).accounts, a.username).None?)
  {
    var client := w.clients[c];
    var stmt := NextStmt(client.stage, client.req);
    var (tx, response) := Outcomes(cfg, w, client, verdict);
    assert client.tx.status.Active?;
    RowsAdded(cfg, At(w.past, client.tx.began), client.tx.writes, stmt, tx.writes, response);
  }

  lemma ExecLocksOk(cfg: Config, w: World, c: nat, verdict: Verdict)
    requires Inv(cfg, w) && Enabled(w, Exec(c, verdict))
    requires Holding(AfterExec(cfg, w, c, verdict))
    ensures LocksOk(w.past, w.log, AfterExec(cfg, w, c, verdict).tx)
  {
    ExecWrites(cfg, w, c, verdict);
    assert ClientOk(cfg, w.past, w.log, c, w.clients[c]);
  }

  lemma ExecApart(cfg: Config, w: World, c: nat, verdict: Verdict, d: nat)
    requires Inv(cfg, w) && Enabled(w, Exec(c, verdict)) && d in w.clients && d != c
    ensures Apart(AfterExec(cfg, w, c, verdict), w.clients[d]) && Apart(w.clients[d], AfterExec(cfg, w, c, verdict))
  {
    if Holding(AfterExec(cfg, w, c, verdict)) && Holding(w.clients[d]) {
      ExecWrites(cfg, w, c, verdict);
      assert Apart(w.clients[c], w.clients[d]) && Apart(w.clients[d], w.clients[c]);
      assert !Holds(w.clients[d], NextStmt(w.clients[c].stage, w.clients[c].req));
    }
  }

  lemma ExecStaysOpen(cfg: Config, w: World, c: nat, verdict: Verdict)
    requires Enabled(w, Exec(c, verdict))
    ensures !w.clients[c].stage.Ended? && !AfterExec(cfg, w, c, verdict).stage.Ended?
    ensures AfterExec(cfg, w, c, verdict).req == w.clients[c].req
    ensures AfterExec(cfg, w, c, verdict).tx.began == w.clients[c].tx.began
  {
  }

  lemma ExecClientOk(cfg: Config, w: World, c: nat, verdict: Verdict)
    requires Inv(cfg, w) && Enabled(w, Exec(c, verdict))
    ensures ClientOk(cfg, w.past, w.log, c, AfterExec(cfg, w, c, verdict))
  {
    hide StageOk, LocksOk, AfterExec, History.Valid, VersionsOk, Apart;
    ExecStageOk(cfg, w, c, verdict);
    if Holding(AfterExec(cfg, w, c, verdict)) { ExecLocksOk(cfg, w, c, verdict); }
    ExecStaysOpen(cfg, w, c, verdict);
    assert ClientOk(cfg, w.past, w.log, c, w.clients[c]);
  }

  /** Replacing one client by another that is in order keeps the store in order. */
  lemma ReplaceClient(cfg: Config, w: World, c: nat, client: Client)
    requires Inv(cfg, w)
    requires ClientOk(cfg, w.past, w.log, c, client)
    requires forall d :: d in w.clients && d != c ==> Apart(client, w.clients[d]) && Apart(w.clients[d], client)
    ensures Inv(cfg, w.(clients := w.clients[c := client]))
  {
    var w' := w.(clients := w.clients[c := client]);
    assert forall id :: Version(w', id) == Version(w, id);
    assert forall d :: d in w'.clients ==> d == c || (d in w.clients && w'.clients[d] == w.clients[d]);
  }

  lemma ExecKeepsInv(cfg: Config, w: World, c: nat, verdict: Verdict)
    requires Inv(cfg, w) && Enabled(w, Exec(c, verdict))
    ensures Inv(cfg, Next(cfg, w, Exec(c, verdict)))
  {
    ExecClientOk(cfg, w, c, verdict);
    forall d | d in w.clients && d != c { ExecApart(cfg, w, c, verdict, d); }
    ReplaceClient(cfg, w, c, AfterExec(cfg, w, c, verdict));
  }

  // ----- commit -----

  /** A committing client's rows are new to the store: exactly what a justified log entry needs. */
  lemma CommitIsJustified(cfg: Config, w: World, c: nat, told: bool)
    requires Inv(cfg, w) && Enabled(w, Commit(c, told))
    ensures History.Valid(cfg, Next(cfg, w, Commit(c, told)).past, Next(cfg, w, Commit(c, told)).log)
  {
    hide Completes, VersionsOk, Apart;
    var w' := Next(cfg, w, Commit(c, told));
    var n := |w.log|;
    assert w'.log[..n] == w.log;
    forall i | 0 <= i < |w'.log| ensures Justified(cfg, w'.past, w'.log, i) {
      if i < n {
        assert Justified(cfg, w.past, w.log, i);
        assert w'.log[..i] == w.log[..i];
      }
    }
  }

  lemma CommitVersionsOk(cfg: Config, w: World, c: nat, told: bool)
    requires Inv(cfg, w) && Enabled(w, Commit(c, told))
    ensures VersionsOk(Next(cfg, w, Commit(c, told)))
  {
    var w' := Next(cfg, w, Commit(c, told));
    var k := |w.log|;
    forall id: Id, n: nat | n <= |w'.log| ensures Version(w', id) <= n <==> Untouched(w'.log, id, n, |w'.log|) {
      assert forall i :: 0 <= i < k ==> w'.log[i] == w.log[i];
      assert w'.log[k].writes == w.clients[c].tx.writes;
      assert Version(w, id) <= k by { assert Untouched(w.log, id, k, |w.log|); }
      if id in w'.log[k].writes.balances {
        assert Version(w', id) == k + 1;
      } else {
        assert Version(w', id) == Version(w, id);
        if n <= k {
          assert Version(w, id) <= n <==> Untouched(w.log, id, n, |w.log|);
          assert Untouched(w.log, id, n, |w.log|) <==> Untouched(w'.log, id, n, |w'.log|);
        }
      }
    }
  }

  lemma CommitKeepsLocks(cfg: Config, w: World, c: nat, told: bool, d: nat)
    requires Inv(cfg, w) && Enabled(w, Commit(c, told)) && d in w.clients && d != c
    requires Holding(w.clients[d])
    ensures LocksOk(Next(cfg, w, Commit(c, told)).past, Next(cfg, w, Commit(c, told)).log, w.clients[d].tx)
  {
    var client, other := w.clients[c], w.clients[d];
    assert Apart(client, other) && Apart(other, client);
    assert LocksOk(w.past, w.log, other.tx);
    forall a | a in other.tx.writes.accounts
      ensures FindAccount(Committed(w).accounts + client.tx.writes.accounts, a.username).None?
    {
      FindAccountAppend(Committed(w).accounts, client.tx.writes.accounts, a.username);
    }
  }

  lemma CommitKeepsOthers(cfg: Config, w: World, c: nat, told: bool, d: nat)
    requires Inv(cfg, w) && Enabled(w, Commit(c, told)) && d in w.clients && d != c
    ensures ClientOk(cfg, Next(cfg, w, Commit(c, told)).past, Next(cfg, w, Commit(c, told)).log, d, w.clients[d])
  {
    var w' := Next(cfg, w, Commit(c, told));
    var other := w.clients[d];
    assert ClientOk(cfg, w.past, w.log, d, other);
    assert At(w'.past, other.tx.began) == At(w.past, other.tx.began);
    assert forall i :: 0 <= i < |w.log| ==> w'.log[i] == w.log[i];
    assert w'.log[|w.log|].client == c;
    if Holding(other) { CommitKeepsLocks(cfg, w, c, told, d); }
    if i :| 0 <= i < |w.log| && w.log[i].client == d {
      assert w'.log[i].client == d;
    }
  }

  lemma CommitEndsClient(cfg: Config, w: World, c: nat, told: bool)
    requires Inv(cfg, w) && Enabled(w, Commit(c, told))
    ensures var w' := Next(cfg, w, Commit(c, told)); ClientOk(cfg, w'.past, w'.log, c, w'.clients[c])
  {
    var w' := Next(cfg, w, Commit(c, told));
    assert ClientOk(cfg, w.past, w.log, c, w.clients[c]);
    assert w'.log[|w.log|].client == c;
    assert forall i :: 0 <= i < |w.log| ==> w'.log[i] == w.log[i];
  }

  lemma CommitKeepsInv(cfg: Config, w: World, c: nat, told: bool)
    requires Inv(cfg, w) && Enabled(w, Commit(c, told))
    ensures Inv(cfg, Next(cfg, w, Commit(c, told)))
  {
    hide ClientOk, VersionsOk, History.Valid;
    CommitIsJustified(cfg, w, c, told);
    CommitVersionsOk(cfg, w, c, told);
    CommitEndsClient(cfg, w, c, told);
    forall d | d in w.clients && d != c { CommitKeepsOthers(cfg, w, c, told, d); }
    var w' := Next(cfg, w, Commit(c, told));
    assert !Holding(w'.clients[c]);
    assert forall d :: d in w'.clients && d != c ==> d in w.clients && w'.clients[d] == w.clients[d];
  }

  // ----- the other actions, and whole runs -----

  lemma OtherActionsKeepInv(cfg: Config, w: World, act: Action)
    requires Inv(cfg, w) && Enabled(w, act) && !act.Exec? && !act.Commit?
    ensures Inv(cfg, Next(cfg, w, act))
  {
    var client := Next(cfg, w, act).clients[act.client];
    if !act.Begin? { assert ClientOk(cfg, w.past, w.log, act.client, w.clients[act.client]); }
    ReplaceClient(cfg, w, act.client, client);
  }

  lemma StepKeepsInv(cfg: Config, w: World, act: Action)
    requires Inv(cfg, w) && Enabled(w, act)
    ensures Inv(cfg, Next(cfg, w, act))
  {
    match act
    case Exec(c, verdict) => ExecKeepsInv(cfg, w, c, verdict);
    case Commit(c, told) => CommitKeepsInv(cfg, w, c, told);
    case _ => OtherActionsKeepInv(cfg, w, act);
  }

  lemma {:induction false} RunKeepsInv(cfg: Config, w: World, acts: seq<Action>, w': World)
    requires Inv(cfg, w) && Leads(cfg, w, acts, w')
    ensures Inv(cfg, w')
    decreases |acts|
  {
    if acts != [] {
      StepKeepsInv(cfg, w, acts[0]);
      RunKeepsInv(cfg, Next(cfg, w, acts[0]), acts[1..], w');
    }
  }

  /** Every reachable store satisfies the invariant, whatever the requests and however they interleave. */
  lemma ReachedInv(cfg: Config, acts: seq<Action>, w: World)
    requires Reached(cfg, acts, w)
    ensures Inv(cfg, w)
  {
    RunKeepsInv(cfg, INITIAL, acts, w);
  }
}
