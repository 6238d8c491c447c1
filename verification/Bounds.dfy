/** When every number the service stores, even in the middle of a transaction, fits in int64. */
module Bounds {
  import opened Schema
  import opened Program
  import opened Store
  import opened History
  import opened Invariant
  import opened Posting
  import opened Ledger
  import opened Documents

  /** What the transaction has written when it reaches an upsert of this account. */
  ghost predicate AtUpsert(cfg: Config, c: nat, req: Request, snapshot: Tables, writes: Tables, id: Id) {
    match req
    case SignIn(_, _) => id == Uuid(c, 0) && writes.operations == [Welcome(cfg, c)]
    case SendCoins(target, owner, _, _) =>
      var found := FindAccount(snapshot.accounts, target);
      && found.Some? && found.value.id != owner
      && (|| (id == owner && writes.operations == [Debit(c, req)])
          || (id == found.value.id && writes.operations == [Debit(c, req), Credit(c, req, id)]
              && SumOf(snapshot.operations, owner) + SumOf([Debit(c, req)], owner) >= 0))
    case Buy(name, buyer, _, _) =>
      var found := FindItem(cfg.items, name);
      found.Some? && id == buyer && writes.operations == [Payment(c, req, found.value)]
  }

  lemma FirstInsert(cfg: Config, snapshot: Tables, lines: seq<Line>, n: nat, writes: Tables, o: Operation)
    requires n < |lines| && lines[n] == Line(InsertOperation(o), false)
    requires RunLines(cfg, snapshot, lines, n) == Some(writes)
    requires RunLines(cfg, snapshot, lines, n + 1).Some?
    ensures RunLines(cfg, snapshot, lines, n + 1).value.operations == writes.operations + [o]
  {
  }

  lemma SendAtUpsert(cfg: Config, c: nat, req: Request, target: Id, snapshot: Tables, n: nat, writes: Tables)
    requires req.SendCoins? && target != req.owner
    requires n == 1 || n == 4
    requires RunLines(cfg, snapshot, SendLines(c, req, target), n) == Some(writes)
    ensures writes.operations == if n == 1 then [Debit(c, req)] else [Debit(c, req), Credit(c, req, target)]
    ensures n == 4 ==> SumOf(snapshot.operations, req.owner) + SumOf([Debit(c, req)], req.owner) >= 0
  {
    hide RunLines;
    var lines := SendLines(c, req, target);
    NoLines(cfg, snapshot, lines);
    assert [] + [Debit(c, req)] == [Debit(c, req)];
    if n == 1 {
      FirstInsert(cfg, snapshot, lines, 0, EMPTY, Debit(c, req));
    } else {
      EarlierLinesSucceed(cfg, snapshot, lines, 3, 4);
      assert lines[0..3] == SaveLines(Debit(c, req));
      SaveEffect(cfg, snapshot, lines, 0, EMPTY, Debit(c, req));
      FirstInsert(cfg, snapshot, lines, 3, RunLines(cfg, snapshot, lines, 3).value, Credit(c, req, target));
    }
  }

  lemma ReachesUpsert(cfg: Config, c: nat, req: Request, snapshot: Tables, plan: Plan, n: nat, writes: Tables, id: Id)
    requires PlanOf(cfg, c, req, snapshot) == Some(plan) && n < |plan.lines| && plan.lines[n].stmt == UpsertBalance(id)
    requires RunLines(cfg, snapshot, plan.lines, n) == Some(writes)
    ensures AtUpsert(cfg, c, req, snapshot, writes, id)
  {
    hide RunLines;
    NoLines(cfg, snapshot, plan.lines);
    match req
    case SignIn(_, _) =>
      EarlierLinesSucceed(cfg, snapshot, plan.lines, 1, 2);
      assert plan.lines[0] == Line(InsertAccount(AccountOf(c, req)), false);
      InsertAccountEffect(cfg, snapshot, plan.lines, AccountOf(c, req));
      FirstInsert(cfg, snapshot, plan.lines, 1, EMPTY.(accounts := [AccountOf(c, req)]), Welcome(cfg, c));
    case SendCoins(target, _, _, _) =>
      SendAtUpsert(cfg, c, req, FindAccount(snapshot.accounts, target).value.id, snapshot, n, writes);
    case Buy(name, _, _, _) =>
      FirstInsert(cfg, snapshot, plan.lines, 0, EMPTY, Payment(c, req, FindItem(cfg.items, name).value));
  }

  // ----- a bound on any two balances -----

  lemma {:induction false} OneOfMany(accounts: seq<Account>, f: Account -> int, a: Account)
    requires a in accounts && forall x :: x in accounts ==> f(x) >= 0
    ensures 0 <= f(a) <= SumBy(accounts, f)
  {
    if accounts[0] == a {
      NonNegativeSum(accounts[1..], f);
    } else {
      OneOfMany(accounts[1..], f, a);
    }
  }

  lemma {:induction false} NonNegativeSum<T>(xs: seq<T>, f: T -> int)
    requires forall x :: x in xs ==> f(x) >= 0
    ensures SumBy(xs, f) >= 0
  {
    if xs != [] { NonNegativeSum(xs[1..], f); }
  }

  lemma {:induction false} TwoOfMany(accounts: seq<Account>, f: Account -> int, a: Account, b: Account)
    requires a in accounts && b in accounts && a != b && forall x :: x in accounts ==> f(x) >= 0
    ensures f(a) + f(b) <= SumBy(accounts, f)
  {
    if accounts[0] == a {
      OneOfMany(accounts[1..], f, b);
    } else if accounts[0] == b {
      OneOfMany(accounts[1..], f, a);
    } else {
      TwoOfMany(accounts[1..], f, a, b);
    }
  }

  /** With non-negative prices and no wrapped product, all coins together never exceed the deposits. */
  lemma TotalWithinDeposits(cfg: Config, past: seq<Tables>, log: seq<Entry>, n: nat)
    requires CatalogueOk(cfg) && PricesOk(cfg) && History.Valid(cfg, past, log) && n <= |log|
    requires forall p :: p in past[n].purchases ==> Cost(cfg, p) <= MAX_INT64
    ensures TotalBalance(past[n]) <= SumBy(past[n].operations, Deposit())
  {
    hide Justified;
    Conservation(cfg, past, log, n);
    CommittedQuantitiesPositive(cfg, past, log, n);
    forall p | p in past[n].purchases ensures ChargeBy(cfg)(p) >= 0 {
      PriceNonNegative(cfg.items, p.item);
      ProductNonNegative(PriceOf(cfg.items, p.item), p.quantity);
      ChargeIsCostIff(cfg, p);
    }
    NonNegativeSum(past[n].purchases, ChargeBy(cfg));
  }

  lemma BalanceWithinTotal(cfg: Config, past: seq<Tables>, log: seq<Entry>, n: nat, a: Id)
    requires History.Valid(cfg, past, log) && n <= |log|
    ensures 0 <= SumOf(past[n].operations, a) <= TotalBalance(past[n])
    ensures !HasAccount(past[n].accounts, a) ==> SumOf(past[n].operations, a) == 0
  {
    hide Justified;
    NoOverdraft(cfg, past, log, n);
    BalanceIsSum(cfg, past, log, n, a);
    if HasAccount(past[n].accounts, a) {
      var x :| x in past[n].accounts && x.id == a;
      OneOfMany(past[n].accounts, BalanceIn(past[n]), x);
    } else {
      ReferencesHold(cfg, past, log, n);
      SumByZero(past[n].operations, AmountOn(a));
      NonNegativeSum(past[n].accounts, BalanceIn(past[n]));
    }
  }

  /** Any two balances together are at most the total. */
  lemma BalancesWithinTotal(cfg: Config, past: seq<Tables>, log: seq<Entry>, n: nat, a: Id, b: Id)
    requires History.Valid(cfg, past, log) && n <= |log| && a != b
    ensures SumOf(past[n].operations, a) + SumOf(past[n].operations, b) <= TotalBalance(past[n])
  {
    hide Justified;
    BalanceWithinTotal(cfg, past, log, n, a);
    BalanceWithinTotal(cfg, past, log, n, b);
    if HasAccount(past[n].accounts, a) && HasAccount(past[n].accounts, b) {
      NoOverdraft(cfg, past, log, n);
      BalanceIsSum(cfg, past, log, n, a);
      BalanceIsSum(cfg, past, log, n, b);
      var x :| x in past[n].accounts && x.id == a;
      var y :| y in past[n].accounts && y.id == b;
      TwoOfMany(past[n].accounts, BalanceIn(past[n]), x, y);
    }
  }

  // ----- the main result -----

  /** A transaction about to recompute a balance row, in a live transaction. */
  ghost predicate Upserting(w: World, c: nat, id: Id) {
    && c in w.clients && w.clients[c].tx.status.Active?
    && w.clients[c].stage.Writing? && Issues(w.clients[c].stage, w.clients[c].req)
    && NextStmt(w.clients[c].stage, w.clients[c].req) == UpsertBalance(id)
  }

  /** The sum that upsert computes: snapshot plus the transaction's own operations. */
  ghost function UpsertSum(w: World, c: nat, id: Id): int
    requires c in w.clients
  {
    SumOf(Merge(At(w.past, w.clients[c].tx.began), w.clients[c].tx.writes).operations, id)
  }

  lemma UpsertState(cfg: Config, acts: seq<Action>, w: World, c: nat, id: Id)
    requires Reached(cfg, acts, w) && Upserting(w, c, id)
    ensures Inv(cfg, w)
    ensures var client := w.clients[c];
            && client.tx.began <= |w.log| < |w.past|
            && AtUpsert(cfg, c, client.req, w.past[client.tx.began], client.tx.writes, id)
            && (client.req.SendCoins? ==> client.req.amount > 0)
            && UpsertSum(w, c, id)
               == SumOf(w.past[client.tx.began].operations, id) + SumOf(client.tx.writes.operations, id)
            && forall k :: 0 <= k < |w.log| ==> w.log[k].client != c
  {
    ReachedInv(cfg, acts, w);
    hide RunLines, LocksOk;
    var Client(req, stage, tx) := w.clients[c];
    var snapshot := At(w.past, tx.began);
    assert ClientOk(cfg, w.past, w.log, c, w.clients[c]);
    ReachesUpsert(cfg, c, req, snapshot, Plan(stage.lines, stage.reply), stage.pos, tx.writes, id);
    SumByAppend(snapshot.operations, tx.writes.operations, AmountOn(id));
  }

  /** Price times quantity of the purchase asked for. */
  function Product(cfg: Config, req: Request): int
    requires req.Buy?
  {
    var found := FindItem(cfg.items, req.item);
    if found.Some? then found.value.price * req.quantity else 0
  }

  /** What the two debits store: the amount negated, except that the lowest product is its own negation. */
  lemma NegatedAmounts(cfg: Config, c: nat, req: Request)
    ensures req.SendCoins? && req.amount > 0 ==> Debit(c, req).amount == 0 - (req.amount as int)
    ensures req.Buy? && FindItem(cfg.items, req.item).Some? && FitsInt64(Product(cfg, req)) ==>
              Payment(c, req, FindItem(cfg.items, req.item).value).amount
              == if Product(cfg, req) == MIN_INT64 then MIN_INT64 else -Product(cfg, req)
  {
  }

  /**
   A purchase whose product does not wrap, of any quantity and whatever the deposits: the recomputed balance fits
   exactly when taking the product off the balance does not exceed int64, or the product is the lowest int64.
   */
  lemma PurchaseUpsertFitsIff(cfg: Config, acts: seq<Action>, w: World, c: nat, id: Id)
    requires Reached(cfg, acts, w) && Upserting(w, c, id)
    requires w.clients[c].req.Buy? && FitsInt64(Product(cfg, w.clients[c].req))
    ensures var req, snapshot := w.clients[c].req, At(w.past, w.clients[c].tx.began);
            FitsInt64(UpsertSum(w, c, id)) <==>
              Product(cfg, req) == MIN_INT64 || BalanceOf(snapshot, req.buyer) - Product(cfg, req) <= MAX_INT64
  {
    UpsertState(cfg, acts, w, c, id);
    var Client(req, _, tx) := w.clients[c];
    var payment := Payment(c, req, FindItem(cfg.items, req.item).value);
    NegatedAmounts(cfg, c, req);
    SumByTwo(payment, payment, AmountOn(id));
    BalanceIsSum(cfg, w.past, w.log, tx.began, id);
    BalanceWithinTotal(cfg, w.past, w.log, tx.began, id);
  }

  /**
   If the deposits of the snapshot fit in int64, prices are not negative and no product wraps, then the sum an upsert
   computes fits in int64, even in the middle of a transaction that will be rolled back, for every sign-up, every
   transfer and every purchase of a non-negative quantity; for a negative one, exactly when the credit it amounts to
   fits on top of the balance. The negated amounts fit, but for the lowest product.
   */
  lemma UpsertsFitIff(cfg: Config, acts: seq<Action>, w: World, c: nat, id: Id)
    requires CatalogueOk(cfg) && PricesOk(cfg) && Reached(cfg, acts, w) && Upserting(w, c, id)
    requires var snapshot := At(w.past, w.clients[c].tx.began);
             && SumBy(snapshot.operations, Deposit()) <= MAX_INT64
             && forall p :: p in snapshot.purchases ==> Cost(cfg, p) <= MAX_INT64
    requires w.clients[c].req.Buy? ==> FitsInt64(Product(cfg, w.clients[c].req))
    ensures var req, snapshot := w.clients[c].req, At(w.past, w.clients[c].tx.began);
            FitsInt64(UpsertSum(w, c, id)) <==>
              (req.Buy? && req.quantity < 0 ==>
                 Product(cfg, req) == MIN_INT64 || BalanceOf(snapshot, req.buyer) - Product(cfg, req) <= MAX_INT64)
    ensures var req := w.clients[c].req;
            && (req.SendCoins? ==> Debit(c, req).amount == 0 - (req.amount as int))
            && (req.Buy? ==>
                  && FindItem(cfg.items, req.item).Some?
                  && (Payment(c, req, FindItem(cfg.items, req.item).value).amount == -Product(cfg, req)
                      <==> Product(cfg, req) != MIN_INT64))
  {
    UpsertState(cfg, acts, w, c, id);
    NegatedAmounts(cfg, c, w.clients[c].req);
    hide Inv, Reached, Upserting, UpsertSum;
    var Client(req, _, tx) := w.clients[c];
    assert History.Valid(cfg, w.past, w.log) by { ReachedInv(cfg, acts, w); InvIsValid(cfg, w); }
    TotalWithinDeposits(cfg, w.past, w.log, tx.began);
    BalanceWithinTotal(cfg, w.past, w.log, tx.began, id);
    match req
    case SignIn(_, _) =>
      NewAccountHasNoOperations(cfg, w.past, w.log, c, tx.began);
      SumByTwo(Welcome(cfg, c), Welcome(cfg, c), AmountOn(id));
    case SendCoins(target, owner, _, _) =>
      SumByTwo(Debit(c, req), Credit(c, req, id), AmountOn(id));
      SumByTwo(Debit(c, req), Credit(c, req, id), AmountOn(owner));
      if id != owner { BalancesWithinTotal(cfg, w.past, w.log, tx.began, owner, id); }
    case Buy(name, _, _, _) =>
      PurchaseUpsertFitsIff(cfg, acts, w, c, id);
      BalanceIsSum(cfg, w.past, w.log, tx.began, id);
      if req.quantity >= 0 { ProductNonNegative(FindItem(cfg.items, name).value.price, req.quantity); }
  }

  lemma InvIsValid(cfg: Config, w: World)
    requires Inv(cfg, w)
    ensures History.Valid(cfg, w.past, w.log)
  {
  }
}
