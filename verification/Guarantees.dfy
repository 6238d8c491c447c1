/** What every run promises: any requests, any interleaving, any failures. */
module Guarantees {
  import opened Schema
  import opened Failures
  import opened Program
  import opened Store
  import opened History
  import opened Invariant
  import opened Posting
  import opened Ledger
  import opened Documents
  import opened Serial
  import opened Erasure

  // ----- every committed state -----

  /** After n commits the balance rows are the sums of the log, no balance is negative, usernames are unique. */
  lemma CommittedStatesAreSound(cfg: Config, acts: seq<Action>, w: World, n: nat)
    requires Reached(cfg, acts, w) && n <= |w.log|
    ensures |w.past| == |w.log| + 1
    ensures CacheAgrees(w.past[n])
    ensures Covered(w.past[n])
    ensures DistinctAccounts(w.past[n].accounts)
  {
    ReachedInv(cfg, acts, w);
    CacheAgreesWithLog(cfg, w.past, w.log, n);
    NoOverdraft(cfg, w.past, w.log, n);
    AccountsAreDistinct(cfg, w.past, w.log, n);
  }

  lemma AccountsAreWelcomedOnce(cfg: Config, acts: seq<Action>, w: World, n: nat, a: Account)
    requires Reached(cfg, acts, w) && n <= |w.log| && a in At(w.past, n).accounts
    ensures Welcomed(cfg, At(w.past, n).operations, a.id)
  {
    ReachedInv(cfg, acts, w);
    OneWelcomeEach(cfg, w.past, w.log, n, a);
  }

  lemma LogAndDocumentsCorrespond(cfg: Config, acts: seq<Action>, w: World, n: nat)
    requires CatalogueOk(cfg) && Reached(cfg, acts, w) && n <= |w.log|
    ensures Corresponds(cfg, At(w.past, n)) && DistinctRows(At(w.past, n))
    ensures MirrorPairs(At(w.past, n).transfers)
  {
    ReachedInv(cfg, acts, w);
    LogMatchesDocuments(cfg, w.past, w.log, n);
    TransfersMirror(cfg, w.past, w.log, n);
  }

  /**
   All coins are the deposits minus the charges. They are the deposits minus price times quantity, given non-negative
   prices, if and only if no committed purchase has a product beyond 2^63.
   */
  lemma CoinsAreConserved(cfg: Config, acts: seq<Action>, w: World, n: nat)
    requires CatalogueOk(cfg) && Reached(cfg, acts, w) && n <= |w.log|
    ensures var Tables(_, operations, _, _, purchases) := At(w.past, n);
            var total, deposits := TotalBalance(At(w.past, n)), SumBy(operations, Deposit());
            && total == deposits - SumBy(purchases, ChargeBy(cfg))
            && (PricesOk(cfg) ==>
                  (total == deposits - SumBy(purchases, CostBy(cfg)) <==>
                     forall p :: p in purchases ==> Cost(cfg, p) <= MAX_INT64 + 1))
            && ((forall p :: p in purchases ==> MIN_INT64 < Cost(cfg, p) <= MAX_INT64 + 1) ==>
                  total == deposits - SumBy(purchases, CostBy(cfg)))
  {
    ReachedInv(cfg, acts, w);
    Conservation(cfg, w.past, w.log, n);
    if PricesOk(cfg) {
      ChargesAreCostsIff(cfg, w.past, w.log, n);
    }
    if forall p :: p in w.past[n].purchases ==> MIN_INT64 < Cost(cfg, p) <= MAX_INT64 + 1 {
      forall p | p in w.past[n].purchases ensures ChargeBy(cfg)(p) == CostBy(cfg)(p) { ChargeIsCostIff(cfg, p); }
      SumBySame(w.past[n].purchases, ChargeBy(cfg), CostBy(cfg));
    }
  }

  /** The version of a balance row names the last commit that added an operation of its account. */
  lemma VersionIsLastPosting(cfg: Config, acts: seq<Action>, w: World, id: Id)
    requires Reached(cfg, acts, w)
    ensures Version(w, id) <= |w.log|
    ensures Version(w, id) > 0 ==> exists o :: o in w.log[Version(w, id) - 1].writes.operations && o.account == id
    ensures forall k, o :: Version(w, id) <= k < |w.log| && o in w.log[k].writes.operations ==> o.account != id
  {
    ReachedInv(cfg, acts, w);
    var v := Version(w, id);
    assert v <= |w.log| by { assert Untouched(w.log, id, |w.log|, |w.log|); }
    assert Untouched(w.log, id, v, |w.log|);
    if v > 0 {
      assert !Untouched(w.log, id, v - 1, |w.log|);
      assert id in w.log[v - 1].writes.balances;
      EntryPosted(cfg, w.past, w.log, v - 1);
    }
    forall k, o | v <= k < |w.log| && o in w.log[k].writes.operations ensures o.account != id {
      EntryPosted(cfg, w.past, w.log, k);
    }
  }

  // ----- all or nothing -----

  /**
   A request whose commit did not take effect, whichever of its statements failed, might as well never have run:
   without its actions the run is still possible and leads to the same tables, log and versions and to the same
   state of every other request. Its identity key is used only if another committed request used it.
   */
  lemma AllOrNothing(cfg: Config, acts: seq<Action>, w: World, c: nat)
    requires Reached(cfg, acts, w) && c in w.clients
    requires !Landed(w.clients[c].stage)
    ensures Reached(cfg, Without(acts, c), World(w.past, w.log, w.versions, w.clients - {c}))
    ensures Unmarked(Committed(w), c)
    ensures !KeyFree(Committed(w), w.clients[c].req) ==>
              exists i :: 0 <= i < |w.log| && w.log[i].client != c && SameKey(w.log[i].req, w.clients[c].req)
  {
    RunWithout(cfg, INITIAL, acts, w, c);
    assert Erased(INITIAL, c) == INITIAL;
    ReachedInv(cfg, acts, w);
    assert ClientOk(cfg, w.past, w.log, c, w.clients[c]);
    UnmarkedBefore(cfg, w.past, w.log, |w.log|, c);
    if !KeyFree(Committed(w), w.clients[c].req) {
      UsedKeyHasUser(cfg, w.past, w.log, |w.log|, w.clients[c].req);
    }
  }

  /**
   A request whose commit took effect, and so every one that returned success, is committed exactly once, with the
   reply it prepared and with its full effect.
   */
  lemma SuccessIsCommittedOnce(cfg: Config, acts: seq<Action>, w: World, c: nat)
    requires Reached(cfg, acts, w) && c in w.clients
    requires Landed(w.clients[c].stage)
    ensures exists i :: 0 <= i < |w.log| && w.log[i].client == c && w.log[i].req == w.clients[c].req
                        && w.log[i].reply == w.clients[c].stage.outcome.reply
                        && w.log[i].began <= i < |w.past|
                        && Posted(cfg, c, w.log[i].req, w.past[w.log[i].began], w.log[i].writes, w.log[i].reply)
                        && forall j :: 0 <= j < |w.log| && w.log[j].client == c ==> j == i
  {
    ReachedInv(cfg, acts, w);
    assert LogAgrees(w.log, c, w.clients[c]);
    var i :| 0 <= i < |w.log| && w.log[i].client == c;
    EntryPosted(cfg, w.past, w.log, i);
    forall j | 0 <= j < |w.log| && w.log[j].client == c ensures j == i {
      assert Justified(cfg, w.past, w.log, i) && Justified(cfg, w.past, w.log, j);
    }
  }

  // ----- the swallowed conflict -----

  lemma {:induction false} OthersLeaveClientAlone(cfg: Config, w: World, acts: seq<Action>, w': World, c: nat)
    requires Leads(cfg, w, acts, w') && c in w.clients && forall a :: a in acts ==> a.client != c
    ensures c in w'.clients && w'.clients[c] == w.clients[c]
    decreases |acts|
  {
    if acts != [] {
      OthersLeaveClientAlone(cfg, Next(cfg, w, acts[0]), acts[1..], w', c);
    }
  }

  /** The upsert fails, the transaction is dead, and the code has not noticed. */
  lemma ConflictGoesUnread(cfg: Config, w: World, c: nat, id: Id, first: bool)
    requires Inv(cfg, w) && Enabled(w, Exec(c, Normal(first)))
    requires w.clients[c].tx.status.Active? && NextStmt(w.clients[c].stage, w.clients[c].req) == UpsertBalance(id)
    requires Version(w, id) > w.clients[c].tx.began
    ensures var after := AfterExec(cfg, w, c, Normal(first));
            && after.tx.status == Status.Failed
            && after.stage.Writing? && Issues(after.stage, after.req)
            && NextStmt(after.stage, after.req) == SelectBalance(id)
  {
    hide History.Valid, VersionsOk, LocksOk, LogAgrees, Apart, RunLines;
    var client := w.clients[c];
    assert ClientOk(cfg, w.past, w.log, c, client);
    PlanShape(cfg, c, client.req, At(w.past, client.tx.began), client.stage.pos);
  }

  /** A read-back in a dead transaction ends the request with the conflict error. */
  lemma DeadReadSurfaces(cfg: Config, w: World, c: nat, id: Id, second: bool)
    requires c in w.clients && w.clients[c].tx.status == Status.Failed
    requires w.clients[c].stage.Writing? && Issues(w.clients[c].stage, w.clients[c].req)
    requires NextStmt(w.clients[c].stage, w.clients[c].req) == SelectBalance(id)
    ensures Enabled(w, Exec(c, Normal(second)))
    ensures AfterExec(cfg, w, c, Normal(second)).stage == Leaving(Refused(From(TxConcurrentExec)))
  {
  }

  /**
   An upsert that meets a balance row committed after its snapshot fails unnoticed: the code goes on to the
   read-back. Whatever the others do meanwhile, the read-back fails and the request ends with the conflict error.
   */
  lemma SwallowedConflictSurfaces(cfg: Config, acts: seq<Action>, w: World, c: nat, id: Id, first: bool,
                                  others: seq<Action>, w': World, second: bool)
    requires Reached(cfg, acts, w) && Enabled(w, Exec(c, Normal(first)))
    requires w.clients[c].tx.status.Active? && NextStmt(w.clients[c].stage, w.clients[c].req) == UpsertBalance(id)
    requires Version(w, id) > w.clients[c].tx.began
    requires Leads(cfg, Next(cfg, w, Exec(c, Normal(first))), others, w') && forall a :: a in others ==> a.client != c
    ensures Enabled(w', Exec(c, Normal(second)))
    ensures NextStmt(w'.clients[c].stage, w'.clients[c].req) == SelectBalance(id)
    ensures AfterExec(cfg, w', c, Normal(second)).stage == Leaving(Refused(From(TxConcurrentExec)))
  {
    hide AfterExec, Inv;
    ReachedInv(cfg, acts, w);
    ConflictGoesUnread(cfg, w, c, id, first);
    OthersLeaveClientAlone(cfg, Next(cfg, w, Exec(c, Normal(first))), others, w', c);
    DeadReadSurfaces(cfg, w', c, id, second);
  }

  ghost predicate SavesAt(lines: seq<Line>, n: nat, operation: Operation) {
    n + 3 <= |lines| && lines[n..n + 3] == SaveLines(operation)
  }

  /** SaveOperation has just returned without an error, or the whole closure has and SaveOperation was part of it. */
  ghost predicate Saved(cfg: Config, w: World, c: nat, operation: Operation)
    requires c in w.clients
  {
    var Client(req, stage, tx) := w.clients[c];
    match stage
    case Writing(lines, pos, _) => 3 <= pos && SavesAt(lines, pos - 3, operation)
    case Leaving(Success(_)) =>
      var plan := PlanOf(cfg, c, req, At(w.past, tx.began));
      plan.Some? && exists n: nat :: SavesAt(plan.value.lines, n, operation)
    case _ => false
  }

  /** The transaction holds the operation, and the balance row that belongs to it. */
  ghost predicate HoldsSaved(w: World, c: nat, operation: Operation)
    requires c in w.clients
  {
    var tx := w.clients[c].tx;
    && tx.status.Active?
    && operation in tx.writes.operations
    && BalancePosted(At(w.past, tx.began), tx.writes, operation.account)
  }

  lemma SavedMidway(cfg: Config, w: World, c: nat, operation: Operation)
    requires Inv(cfg, w) && c in w.clients && w.clients[c].stage.Writing? && Saved(cfg, w, c, operation)
    ensures HoldsSaved(w, c, operation)
  {
    var Client(req, Writing(lines, pos, _), tx) := w.clients[c];
    var snapshot := At(w.past, tx.began);
    assert ClientOk(cfg, w.past, w.log, c, w.clients[c]);
    assert lines[pos - 1] == SaveLines(operation)[2];
    EarlierLinesSucceed(cfg, snapshot, lines, pos - 3, pos);
    SaveEffect(cfg, snapshot, lines, pos - 3, RunLines(cfg, snapshot, lines, pos - 3).value, operation);
  }

  lemma CompletedHoldsSaved(cfg: Config, c: nat, req: Request, snapshot: Tables, writes: Tables, reply: Reply,
                            n: nat, operation: Operation)
    requires Completes(cfg, c, req, snapshot, writes, reply)
    requires SavesAt(PlanOf(cfg, c, req, snapshot).value.lines, n, operation)
    ensures operation in writes.operations && BalancePosted(snapshot, writes, operation.account)
  {
    hide RunLines, PlanOf, KeyFree, Posted, SumOf;
    var lines := PlanOf(cfg, c, req, snapshot).value.lines;
    EarlierLinesSucceed(cfg, snapshot, lines, n, |lines|);
    LinesOnlyAdd(cfg, snapshot, lines, n + 3, |lines|);
    SaveEffect(cfg, snapshot, lines, n, RunLines(cfg, snapshot, lines, n).value, operation);
    CompletesMeansPosted(cfg, c, req, snapshot, writes, reply);
    PostedReflects(cfg, c, req, snapshot, writes, reply);
    var before, saved := RunLines(cfg, snapshot, lines, n).value, RunLines(cfg, snapshot, lines, n + 3).value;
    assert saved.operations[|before.operations|] == operation;
  }

  lemma SavedAtTheEnd(cfg: Config, w: World, c: nat, operation: Operation)
    requires Inv(cfg, w) && c in w.clients && w.clients[c].stage.Leaving? && Saved(cfg, w, c, operation)
    ensures HoldsSaved(w, c, operation)
  {
    hide Completes, VersionsOk, History.Valid, LocksOk, LogAgrees, BalancePosted, SavesAt;
    var Client(req, stage, tx) := w.clients[c];
    var snapshot := At(w.past, tx.began);
    assert ClientOk(cfg, w.past, w.log, c, w.clients[c]);
    var n: nat :| SavesAt(PlanOf(cfg, c, req, snapshot).value.lines, n, operation);
    CompletedHoldsSaved(cfg, c, req, snapshot, tx.writes, stage.outcome.reply, n, operation);
  }

  /**
   Code that has got past SaveOperation, up to the commit, is in a live transaction that holds the operation and the
   matching balance row, and no commit since the snapshot has written that row: no lost update escapes.
   */
  lemma NoLostUpdate(cfg: Config, acts: seq<Action>, w: World, c: nat, operation: Operation)
    requires Reached(cfg, acts, w) && c in w.clients && Saved(cfg, w, c, operation)
    ensures HoldsSaved(w, c, operation)
    ensures Untouched(w.log, operation.account, w.clients[c].tx.began, |w.log|)
  {
    ReachedInv(cfg, acts, w);
    if w.clients[c].stage.Writing? {
      SavedMidway(cfg, w, c, operation);
    } else {
      SavedAtTheEnd(cfg, w, c, operation);
    }
    assert ClientOk(cfg, w.past, w.log, c, w.clients[c]);
  }

  // ----- what a request is told -----

  /** A request that is about to roll back in a live transaction has the reason its snapshot gives. */
  lemma RefusedForAReason(cfg: Config, acts: seq<Action>, w: World, c: nat)
    requires Reached(cfg, acts, w) && c in w.clients
    requires w.clients[c].stage.Leaving? && w.clients[c].stage.outcome.Refused? && w.clients[c].tx.status.Active?
    ensures Refusal(cfg, At(w.past, w.clients[c].tx.began), w.clients[c].req, w.clients[c].stage.outcome.failure)
  {
    hide History.Valid, VersionsOk, LocksOk, LogAgrees, Apart;
    ReachedInv(cfg, acts, w);
    assert ClientOk(cfg, w.past, w.log, c, w.clients[c]);
  }

  /** A request that is about to commit has prepared the answer to what it was asked. */
  lemma AnsweredAsAsked(cfg: Config, acts: seq<Action>, w: World, c: nat)
    requires Reached(cfg, acts, w) && c in w.clients
    requires w.clients[c].stage.Leaving? && w.clients[c].stage.outcome.Success?
    ensures Answer(cfg, At(w.past, w.clients[c].tx.began), w.clients[c].req, w.clients[c].stage.outcome.reply)
  {
    hide History.Valid, VersionsOk, LocksOk, LogAgrees, Apart, Completes;
    ReachedInv(cfg, acts, w);
    var Client(req, stage, tx) := w.clients[c];
    assert ClientOk(cfg, w.past, w.log, c, w.clients[c]);
    CompletedAnswers(cfg, c, req, At(w.past, tx.began), tx.writes, stage.outcome.reply);
  }

  // ----- purchases of nothing -----

  /** For no quantity at or below zero, however the product wraps, does a purchase get as far as a commit. */
  lemma NonPositivePurchaseNeverCommits(cfg: Config, acts: seq<Action>, w: World, c: nat)
    requires Reached(cfg, acts, w) && c in w.clients && w.clients[c].req.Buy? && w.clients[c].req.quantity <= 0
    ensures w.clients[c].stage.Leaving? ==> w.clients[c].stage.outcome.Refused?
    ensures w.clients[c].stage.Ended? ==> w.clients[c].stage.outcome.Refused?
    ensures forall i :: 0 <= i < |w.log| ==> w.log[i].client != c
    ensures Unmarked(Committed(w), c)
  {
    ReachedInv(cfg, acts, w);
    var client := w.clients[c];
    assert ClientOk(cfg, w.past, w.log, c, client);
    if client.stage.Leaving? && client.stage.outcome.Success? {
      CompletesMeansPosted(cfg, c, client.req, At(w.past, client.tx.began), client.tx.writes,
                           client.stage.outcome.reply);
      assert false;
    }
    if Landed(client.stage) {
      SuccessIsCommittedOnce(cfg, acts, w, c);
      assert false;
    }
    AllOrNothing(cfg, acts, w, c);
  }
}
