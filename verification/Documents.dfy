/** How the operation log, the transfer rows and the purchase rows account for each other. */
module Documents {
  import opened Schema
  import opened Program
  import opened Store
  import opened History
  import opened Posting
  import opened Ledger

  // ----- what a purchase costs -----

  function PriceOf(items: seq<ShopItem>, id: Id): int64 {
    if items == [] then 0 else if items[0].id == id then items[0].price else PriceOf(items[1..], id)
  }

  /** item_id is the primary key of the catalogue. */
  ghost predicate CatalogueOk(cfg: Config) {
    forall x, y :: x in cfg.items && y in cfg.items && x.id == y.id ==> x == y
  }

  lemma {:induction false} PriceIsFound(items: seq<ShopItem>, item: ShopItem)
    requires item in items
    requires forall x, y :: x in items && y in items && x.id == y.id ==> x == y
    ensures PriceOf(items, item.id) == item.price
  {
    if items[0].id != item.id { PriceIsFound(items[1..], item); }
  }

  /** What a purchase takes off the balance: the product as int64 computes it, negated twice. */
  function Charge(cfg: Config, p: ShopPurchase): int {
    -(Negate64(Wrap64(PriceOf(cfg.items, p.item) * p.quantity)) as int)
  }

  function Cost(cfg: Config, p: ShopPurchase): int {
    PriceOf(cfg.items, p.item) * p.quantity
  }

  /**
   The charge is the price times the quantity exactly up to 2^63 on either side; at 2^63 itself the product and
   its negation both wrap, and cancel.
   */
  lemma ChargeIsCostIff(cfg: Config, p: ShopPurchase)
    ensures Charge(cfg, p) == Cost(cfg, p) <==> MIN_INT64 < Cost(cfg, p) <= MAX_INT64 + 1
  {
    WrapNegateTwice(Cost(cfg, p));
  }

  lemma WrapNegateTwice(x: int)
    ensures -(Negate64(Wrap64(x)) as int) == x <==> MIN_INT64 < x <= MAX_INT64 + 1
  {
    hide Wrap64;
    var wrapped := Wrap64(x);
    if x == MAX_INT64 + 1 {
      assert wrapped == MIN_INT64 by { WrapAtBound(); }
    }
  }

  lemma WrapAtBound()
    ensures Wrap64(MAX_INT64 + 1) == MIN_INT64
  {
  }

  // ----- sums over one table and one account -----

  function DepositOn(id: Id): Operation -> int {
    (o: Operation) => if o.source.FromDeposit? && o.account == id then o.amount else 0
  }

  function ReceivedOn(id: Id): CoinTransfer -> int {
    (t: CoinTransfer) => if t.kind.Receiving? && t.owner == id then t.amount else 0
  }

  function SentOn(id: Id): CoinTransfer -> int {
    (t: CoinTransfer) => if t.kind.Sending? && t.owner == id then t.amount else 0
  }

  function ChargeOn(cfg: Config, id: Id): ShopPurchase -> int {
    (p: ShopPurchase) => if p.account == id then Charge(cfg, p) else 0
  }

  /** Deposits plus coins received minus coins sent minus purchases paid, read off the document tables. */
  function Statement(cfg: Config, tables: Tables, id: Id): int {
    SumBy(tables.operations, DepositOn(id)) + SumBy(tables.transfers, ReceivedOn(id))
    - SumBy(tables.transfers, SentOn(id)) - SumBy(tables.purchases, ChargeOn(cfg, id))
  }

  lemma StatementMerge(cfg: Config, tables: Tables, writes: Tables, id: Id)
    ensures Statement(cfg, Merge(tables, writes), id) == Statement(cfg, tables, id) + Statement(cfg, writes, id)
  {
    SumByAppend(tables.operations, writes.operations, DepositOn(id));
    SumByAppend(tables.transfers, writes.transfers, ReceivedOn(id));
    SumByAppend(tables.transfers, writes.transfers, SentOn(id));
    SumByAppend(tables.purchases, writes.purchases, ChargeOn(cfg, id));
  }

  /** Within one commit the operations and the documents say the same about every account. */
  lemma WritesBalanceTheirDocuments(cfg: Config, c: nat, req: Request, snapshot: Tables, writes: Tables, reply: Reply,
                                    id: Id)
    requires CatalogueOk(cfg) && Posted(cfg, c, req, snapshot, writes, reply)
    ensures SumOf(writes.operations, id) == Statement(cfg, writes, id)
  {
    match req
    case SignIn(_, _) =>
      SumByTwo(Welcome(cfg, c), Welcome(cfg, c), AmountOn(id));
      SumByTwo(Welcome(cfg, c), Welcome(cfg, c), DepositOn(id));
    case SendCoins(target, _, _, _) =>
      var to := FindAccount(snapshot.accounts, target).value.id;
      SumByTwo(Debit(c, req), Credit(c, req, to), AmountOn(id));
      SumByTwo(Debit(c, req), Credit(c, req, to), DepositOn(id));
      SumByTwo(SendingRow(c, req, to), ReceivingRow(c, req, to), ReceivedOn(id));
      SumByTwo(SendingRow(c, req, to), ReceivingRow(c, req, to), SentOn(id));
    case Buy(name, _, _, _) =>
      var item := FindItem(cfg.items, name).value;
      PriceIsFound(cfg.items, item);
      SumByTwo(Payment(c, req, item), Payment(c, req, item), AmountOn(id));
      SumByTwo(Payment(c, req, item), Payment(c, req, item), DepositOn(id));
      SumByTwo(PurchaseRow(c, req, item), PurchaseRow(c, req, item), ChargeOn(cfg, id));
  }

  lemma StatementStep(cfg: Config, tables: Tables, writes: Tables, id: Id)
    requires SumOf(tables.operations, id) == Statement(cfg, tables, id)
    requires SumOf(writes.operations, id) == Statement(cfg, writes, id)
    ensures SumOf(Merge(tables, writes).operations, id) == Statement(cfg, Merge(tables, writes), id)
  {
    StatementMerge(cfg, tables, writes, id);
    SumByAppend(tables.operations, writes.operations, AmountOn(id));
  }

  lemma {:induction false} LogIsStatement(cfg: Config, past: seq<Tables>, log: seq<Entry>, n: nat, id: Id)
    requires CatalogueOk(cfg) && History.Valid(cfg, past, log) && n <= |log|
    ensures SumOf(past[n].operations, id) == Statement(cfg, past[n], id)
  {
    hide Justified, Posted, Reflected;
    if n > 0 {
      var e := log[n - 1];
      LogIsStatement(cfg, past, log, n - 1, id);
      EntryPosted(cfg, past, log, n - 1);
      WritesBalanceTheirDocuments(cfg, e.client, e.req, past[e.began], e.writes, e.reply, id);
      StatementStep(cfg, past[n - 1], e.writes, id);
    }
  }

  /** In every committed state the balance of an account is what its documents add up to. */
  lemma BalanceIsStatement(cfg: Config, past: seq<Tables>, log: seq<Entry>, n: nat, id: Id)
    requires CatalogueOk(cfg) && History.Valid(cfg, past, log) && n <= |log|
    ensures BalanceOf(past[n], id) == Statement(cfg, past[n], id)
  {
    hide Justified;
    BalanceIsSum(cfg, past, log, n, id);
    LogIsStatement(cfg, past, log, n, id);
  }

  // ----- conservation -----

  function Amount(): Operation -> int {
    (o: Operation) => o.amount
  }

  function Deposit(): Operation -> int {
    (o: Operation) => if o.source.FromDeposit? then o.amount else 0
  }

  function ChargeBy(cfg: Config): ShopPurchase -> int {
    (p: ShopPurchase) => Charge(cfg, p)
  }

  function SumFor(operations: seq<Operation>): Account -> int {
    (a: Account) => SumOf(operations, a.id)
  }

  function ShareOf(o: Operation): Account -> int {
    (a: Account) => if o.account == a.id then o.amount else 0
  }

  function BalanceIn(tables: Tables): Account -> int {
    (a: Account) => BalanceOf(tables, a.id)
  }

  /** All the coins in the system. */
  function TotalBalance(tables: Tables): int {
    SumBy(tables.accounts, BalanceIn(tables))
  }

  lemma {:induction false} SumBySame<T>(xs: seq<T>, f: T -> int, g: T -> int)
    requires forall x :: x in xs ==> f(x) == g(x)
    ensures SumBy(xs, f) == SumBy(xs, g)
  {
    if xs != [] { SumBySame(xs[1..], f, g); }
  }

  lemma {:induction false} SumByPlus<T>(xs: seq<T>, f: T -> int, g: T -> int, h: T -> int)
    requires forall x :: x in xs ==> h(x) == f(x) + g(x)
    ensures SumBy(xs, h) == SumBy(xs, f) + SumBy(xs, g)
  {
    if xs != [] { SumByPlus(xs[1..], f, g, h); }
  }

  /** Exactly one of several accounts with distinct ids owns an operation. */
  lemma {:induction false} OneOwner(accounts: seq<Account>, o: Operation)
    requires DistinctAccounts(accounts)
    ensures SumBy(accounts, ShareOf(o)) == if HasAccount(accounts, o.account) then o.amount else 0
  {
    if accounts != [] {
      var rest := accounts[1..];
      OneOwner(rest, o);
      assert forall a :: a in rest ==> a.id != accounts[0].id;
      assert forall a :: a in accounts <==> a == accounts[0] || a in rest;
    }
  }

  /** Summing the log account by account counts every operation once. */
  lemma {:induction false} EveryOperationCountedOnce(accounts: seq<Account>, operations: seq<Operation>)
    requires DistinctAccounts(accounts)
    requires forall o :: o in operations ==> HasAccount(accounts, o.account)
    ensures SumBy(accounts, SumFor(operations)) == SumBy(operations, Amount())
  {
    if operations == [] {
      SumByZero(accounts, SumFor([]));
    } else {
      var o, rest := operations[0], operations[1..];
      EveryOperationCountedOnce(accounts, rest);
      OneOwner(accounts, o);
      SumByPlus(accounts, ShareOf(o), SumFor(rest), SumFor(operations));
    }
  }

  lemma TotalIsLogSum(cfg: Config, past: seq<Tables>, log: seq<Entry>, n: nat)
    requires History.Valid(cfg, past, log) && n <= |log|
    ensures TotalBalance(past[n]) == SumBy(past[n].operations, Amount())
  {
    AccountsAreDistinct(cfg, past, log, n);
    ReferencesHold(cfg, past, log, n);
    forall a | a in past[n].accounts ensures BalanceIn(past[n])(a) == SumFor(past[n].operations)(a) {
      BalanceIsSum(cfg, past, log, n, a.id);
    }
    SumBySame(past[n].accounts, BalanceIn(past[n]), SumFor(past[n].operations));
    EveryOperationCountedOnce(past[n].accounts, past[n].operations);
  }

  /** The log's total is deposits minus charges. */
  ghost predicate Conserved(cfg: Config, tables: Tables) {
    SumBy(tables.operations, Amount()) == SumBy(tables.operations, Deposit()) - SumBy(tables.purchases, ChargeBy(cfg))
  }

  /** What one commit adds to all accounts together: deposits minus charges; a transfer adds nothing. */
  lemma WritesConserve(cfg: Config, c: nat, req: Request, snapshot: Tables, writes: Tables, reply: Reply)
    requires CatalogueOk(cfg) && Posted(cfg, c, req, snapshot, writes, reply)
    ensures Conserved(cfg, writes)
    ensures req.SendCoins? ==> SumBy(writes.operations, Amount()) == 0
  {
    match req
    case SignIn(_, _) =>
      SumByTwo(Welcome(cfg, c), Welcome(cfg, c), Amount());
      SumByTwo(Welcome(cfg, c), Welcome(cfg, c), Deposit());
    case SendCoins(target, _, _, _) =>
      var to := FindAccount(snapshot.accounts, target).value.id;
      SumByTwo(Debit(c, req), Credit(c, req, to), Amount());
      SumByTwo(Debit(c, req), Credit(c, req, to), Deposit());
    case Buy(name, _, _, _) =>
      var item := FindItem(cfg.items, name).value;
      PriceIsFound(cfg.items, item);
      SumByTwo(Payment(c, req, item), Payment(c, req, item), Amount());
      SumByTwo(Payment(c, req, item), Payment(c, req, item), Deposit());
      SumByTwo(PurchaseRow(c, req, item), PurchaseRow(c, req, item), ChargeBy(cfg));
  }

  lemma ConservedMerge(cfg: Config, tables: Tables, writes: Tables)
    requires Conserved(cfg, tables) && Conserved(cfg, writes)
    ensures Conserved(cfg, Merge(tables, writes))
  {
    SumByAppend(tables.operations, writes.operations, Amount());
    SumByAppend(tables.operations, writes.operations, Deposit());
    SumByAppend(tables.purchases, writes.purchases, ChargeBy(cfg));
  }

  lemma NothingConserves(cfg: Config)
    requires CatalogueOk(cfg)
    ensures Conserved(cfg, EMPTY)
  {
  }

  lemma {:induction false} LogConserves(cfg: Config, past: seq<Tables>, log: seq<Entry>, n: nat)
    requires CatalogueOk(cfg) && History.Valid(cfg, past, log) && n <= |log|
    ensures Conserved(cfg, past[n])
  {
    hide Justified, Posted, Reflected, Conserved, CatalogueOk;
    if n == 0 {
      assert past[0] == EMPTY;
      NothingConserves(cfg);
    } else {
      var e := log[n - 1];
      LogConserves(cfg, past, log, n - 1);
      EntryPosted(cfg, past, log, n - 1);
      WritesConserve(cfg, e.client, e.req, past[e.began], e.writes, e.reply);
      ConservedMerge(cfg, past[n - 1], e.writes);
    }
  }

  /** Conservation: all balances together are all deposits minus all charges, in every committed state. */
  lemma Conservation(cfg: Config, past: seq<Tables>, log: seq<Entry>, n: nat)
    requires CatalogueOk(cfg) && History.Valid(cfg, past, log) && n <= |log|
    ensures TotalBalance(past[n])
         == SumBy(past[n].operations, Deposit()) - SumBy(past[n].purchases, ChargeBy(cfg))
  {
    TotalIsLogSum(cfg, past, log, n);
    LogConserves(cfg, past, log, n);
  }

  /** A committed transfer moves coins; it neither makes nor destroys any. */
  lemma TransferConserves(cfg: Config, past: seq<Tables>, log: seq<Entry>, i: nat)
    requires CatalogueOk(cfg) && History.Valid(cfg, past, log) && i < |log| && log[i].req.SendCoins?
    ensures TotalBalance(past[i + 1]) == TotalBalance(past[i])
  {
    var e := log[i];
    EntryPosted(cfg, past, log, i);
    WritesConserve(cfg, e.client, e.req, past[e.began], e.writes, e.reply);
    SumByAppend(past[i].operations, e.writes.operations, Amount());
    TotalIsLogSum(cfg, past, log, i);
    TotalIsLogSum(cfg, past, log, i + 1);
  }

  // ----- when charges are costs -----

  /** Committed purchases are of positive quantities. */
  lemma {:induction false} CommittedQuantitiesPositive(cfg: Config, past: seq<Tables>, log: seq<Entry>, n: nat)
    requires History.Valid(cfg, past, log) && n <= |log|
    ensures forall p :: p in past[n].purchases ==> p.quantity > 0
  {
    hide Justified, Reflected;
    if n > 0 {
      CommittedQuantitiesPositive(cfg, past, log, n - 1);
      EntryPosted(cfg, past, log, n - 1);
    }
  }

  ghost predicate PricesOk(cfg: Config) {
    forall i :: i in cfg.items ==> i.price >= 0
  }

  lemma {:induction false} PriceNonNegative(items: seq<ShopItem>, id: Id)
    requires forall i :: i in items ==> i.price >= 0
    ensures PriceOf(items, id) >= 0
  {
    if items != [] { PriceNonNegative(items[1..], id); }
  }

  lemma ProductNonNegative(x: int, y: int)
    requires x >= 0 && y >= 0
    ensures x * y >= 0
  {
  }

  /** What was committed is never charged more than it costs, and less exactly when the product is beyond 2^63. */
  lemma ChargesAtMostCosts(cfg: Config, past: seq<Tables>, log: seq<Entry>, n: nat, p: ShopPurchase)
    requires PricesOk(cfg) && History.Valid(cfg, past, log) && n <= |log| && p in past[n].purchases
    ensures Charge(cfg, p) <= Cost(cfg, p)
    ensures Charge(cfg, p) == Cost(cfg, p) <==> Cost(cfg, p) <= MAX_INT64 + 1
  {
    hide Justified, Charge;
    CommittedQuantitiesPositive(cfg, past, log, n);
    PriceNonNegative(cfg.items, p.item);
    ProductNonNegative(PriceOf(cfg.items, p.item), p.quantity);
    ChargeIsCostIff(cfg, p);
    ChargeIsBounded(cfg, p);
  }

  lemma ChargeIsBounded(cfg: Config, p: ShopPurchase)
    ensures Charge(cfg, p) <= MAX_INT64 + 1
  {
  }

  /** Two sums of which one is nowhere above the other are equal exactly when all their terms are. */
  lemma {:induction false} SumsEqualIff<T>(xs: seq<T>, f: T -> int, g: T -> int)
    requires forall x :: x in xs ==> f(x) <= g(x)
    ensures SumBy(xs, f) <= SumBy(xs, g)
    ensures SumBy(xs, f) == SumBy(xs, g) <==> forall x :: x in xs ==> f(x) == g(x)
  {
    if xs != [] {
      SumsEqualIff(xs[1..], f, g);
    }
  }

  function CostBy(cfg: Config): ShopPurchase -> int {
    (p: ShopPurchase) => Cost(cfg, p)
  }

  function CostOn(cfg: Config, id: Id): ShopPurchase -> int {
    (p: ShopPurchase) => if p.account == id then Cost(cfg, p) else 0
  }

  /** Over all purchases the charges add up to the costs if and only if no product is beyond 2^63. */
  lemma ChargesAreCostsIff(cfg: Config, past: seq<Tables>, log: seq<Entry>, n: nat)
    requires PricesOk(cfg) && History.Valid(cfg, past, log) && n <= |log|
    ensures SumBy(past[n].purchases, ChargeBy(cfg)) == SumBy(past[n].purchases, CostBy(cfg))
       <==> forall p :: p in past[n].purchases ==> Cost(cfg, p) <= MAX_INT64 + 1
  {
    hide Justified, Charge, Cost;
    forall p | p in past[n].purchases
      ensures ChargeBy(cfg)(p) <= CostBy(cfg)(p)
      ensures ChargeBy(cfg)(p) == CostBy(cfg)(p) <==> Cost(cfg, p) <= MAX_INT64 + 1
    {
      ChargesAtMostCosts(cfg, past, log, n, p);
    }
    SumsEqualIff(past[n].purchases, ChargeBy(cfg), CostBy(cfg));
  }

  /** The same over the purchases of one account. */
  lemma ChargesOnAreCostsIff(cfg: Config, past: seq<Tables>, log: seq<Entry>, n: nat, id: Id)
    requires PricesOk(cfg) && History.Valid(cfg, past, log) && n <= |log|
    ensures SumBy(past[n].purchases, ChargeOn(cfg, id)) == SumBy(past[n].purchases, CostOn(cfg, id))
       <==> forall p :: p in past[n].purchases && p.account == id ==> Cost(cfg, p) <= MAX_INT64 + 1
  {
    hide Justified, Charge, Cost;
    forall p | p in past[n].purchases
      ensures ChargeOn(cfg, id)(p) <= CostOn(cfg, id)(p)
      ensures ChargeOn(cfg, id)(p) == CostOn(cfg, id)(p) <==> (p.account == id ==> Cost(cfg, p) <= MAX_INT64 + 1)
    {
      ChargesAtMostCosts(cfg, past, log, n, p);
    }
    SumsEqualIff(past[n].purchases, ChargeOn(cfg, id), CostOn(cfg, id));
  }

  // ----- operations and documents, row by row -----

  /** No row carries an identifier drawn by request c. */
  ghost predicate Unmarked(tables: Tables, c: nat) {
    && (forall a :: a in tables.accounts ==> a.id.request != c)
    && (forall o :: o in tables.operations ==>
          o.id.request != c && (o.sourceId.Some? ==> o.sourceId.value.request != c))
    && (forall t :: t in tables.transfers ==> t.id.request != c)
    && (forall p :: p in tables.purchases ==> p.id.request != c)
  }

  /** Every identifier in these rows was drawn by request c. */
  ghost predicate Marked(tables: Tables, c: nat) {
    && (forall a :: a in tables.accounts ==> a.id.request == c)
    && (forall o :: o in tables.operations ==>
          o.id.request == c && (o.sourceId.Some? ==> o.sourceId.value.request == c))
    && (forall t :: t in tables.transfers ==> t.id.request == c)
    && (forall p :: p in tables.purchases ==> p.id.request == c)
  }

  lemma WritesAreMarked(cfg: Config, c: nat, req: Request, snapshot: Tables, writes: Tables, reply: Reply)
    requires Posted(cfg, c, req, snapshot, writes, reply)
    ensures Marked(writes, c)
  {
  }

  lemma UnmarkedMerge(tables: Tables, writes: Tables, c: nat, d: nat)
    requires Unmarked(tables, c) && Marked(writes, d) && c != d
    ensures Unmarked(Merge(tables, writes), c)
  {
  }

  lemma {:induction false} UnmarkedBefore(cfg: Config, past: seq<Tables>, log: seq<Entry>, n: nat, c: nat)
    requires History.Valid(cfg, past, log) && n <= |log|
    requires forall k :: 0 <= k < n ==> log[k].client != c
    ensures Unmarked(past[n], c)
  {
    hide Justified, Posted, Reflected, Marked;
    if n > 0 {
      var e := log[n - 1];
      UnmarkedBefore(cfg, past, log, n - 1, c);
      EntryPosted(cfg, past, log, n - 1);
      WritesAreMarked(cfg, e.client, e.req, past[e.began], e.writes, e.reply);
      UnmarkedMerge(past[n - 1], e.writes, c, e.client);
    } else {
      assert past[0] == EMPTY;
    }
  }

  ghost predicate PairedWithTransfer(o: Operation, t: CoinTransfer) {
    && o.source.FromTransfer? && o.sourceId == Some(t.id) && o.account == t.owner
    && (if t.kind.Sending? then o.kind.Decrease? && o.amount == 0 - (t.amount as int)
        else o.kind.Increase? && o.amount == t.amount)
  }

  ghost predicate PairedWithPurchase(cfg: Config, o: Operation, p: ShopPurchase) {
    && o.source.FromPurchase? && o.sourceId == Some(p.id) && o.account == p.account
    && o.kind.Decrease? && o.amount == -Charge(cfg, p)
  }

  /** Row identifiers occur once, and no two operations share a source. */
  ghost predicate DistinctRows(tables: Tables) {
    && (forall i, j :: 0 <= i < j < |tables.transfers| ==> tables.transfers[i].id != tables.transfers[j].id)
    && (forall i, j :: 0 <= i < j < |tables.purchases| ==> tables.purchases[i].id != tables.purchases[j].id)
    && (forall i, j :: 0 <= i < j < |tables.operations| && tables.operations[i].sourceId.Some? ==>
          tables.operations[i].sourceId != tables.operations[j].sourceId)
    && (forall i, j :: 0 <= i < j < |tables.operations| ==> tables.operations[i].id != tables.operations[j].id)
  }

  /**
   Every operation that is no deposit has its document, every document its operation, with matching account,
   sign and amount. With DistinctRows the partner is the only row with that identifier, on both sides.
   */
  ghost predicate Corresponds(cfg: Config, tables: Tables) {
    && (forall o :: o in tables.operations ==>
          match o.source
          case FromDeposit => o.sourceId.None? && o.kind.Increase?
          case FromTransfer => exists t :: t in tables.transfers && PairedWithTransfer(o, t)
          case FromPurchase => exists p :: p in tables.purchases && PairedWithPurchase(cfg, o, p))
    && (forall t :: t in tables.transfers ==> exists o :: o in tables.operations && PairedWithTransfer(o, t))
    && (forall p :: p in tables.purchases ==> exists o :: o in tables.operations && PairedWithPurchase(cfg, o, p))
  }

  lemma EmptyCorresponds(cfg: Config)
    ensures Corresponds(cfg, EMPTY) && DistinctRows(EMPTY) && MirrorPairs(EMPTY.transfers)
  {
  }

  lemma CorrespondsMerge(cfg: Config, tables: Tables, writes: Tables)
    requires Corresponds(cfg, tables) && Corresponds(cfg, writes)
    ensures Corresponds(cfg, Merge(tables, writes))
  {
    hide PairedWithTransfer, PairedWithPurchase;
    var merged := Merge(tables, writes);
    forall o | o in merged.operations && o.source.FromTransfer?
      ensures exists t :: t in merged.transfers && PairedWithTransfer(o, t)
    {
      var t :| t in (if o in tables.operations then tables.transfers else writes.transfers) && PairedWithTransfer(o, t);
      assert t in merged.transfers;
    }
    forall o | o in merged.operations && o.source.FromPurchase?
      ensures exists p :: p in merged.purchases && PairedWithPurchase(cfg, o, p)
    {
      var p :| p in (if o in tables.operations then tables.purchases else writes.purchases)
        && PairedWithPurchase(cfg, o, p);
      assert p in merged.purchases;
    }
    forall t | t in merged.transfers ensures exists o :: o in merged.operations && PairedWithTransfer(o, t) {
      var o :| o in (if t in tables.transfers then tables.operations else writes.operations)
        && PairedWithTransfer(o, t);
      assert o in merged.operations;
    }
    forall p | p in merged.purchases ensures exists o :: o in merged.operations && PairedWithPurchase(cfg, o, p) {
      var o :| o in (if p in tables.purchases then tables.operations else writes.operations)
        && PairedWithPurchase(cfg, o, p);
      assert o in merged.operations;
    }
  }

  lemma OnePairCorresponds(cfg: Config, o: Operation, t: CoinTransfer)
    requires PairedWithTransfer(o, t)
    ensures Corresponds(cfg, Tables([], [o], map[], [t], []))
  {
    var tables := Tables([], [o], map[], [t], []);
    assert o in tables.operations && t in tables.transfers;
  }

  lemma TwoPairsCorrespond(cfg: Config, writes: Tables, debit: Operation, credit: Operation, sent: CoinTransfer,
                           received: CoinTransfer)
    requires writes.operations == [debit, credit] && writes.transfers == [sent, received] && writes.purchases == []
    requires PairedWithTransfer(debit, sent) && PairedWithTransfer(credit, received)
    ensures Corresponds(cfg, writes)
  {
    OnePairCorresponds(cfg, debit, sent);
    OnePairCorresponds(cfg, credit, received);
    CorrespondsMerge(cfg, Tables([], [debit], map[], [sent], []), Tables([], [credit], map[], [received], []));
    assert [debit] + [credit] == [debit, credit] && [sent] + [received] == [sent, received];
  }

  lemma TransferCorresponds(cfg: Config, c: nat, req: Request, target: Id, snapshot: Tables, writes: Tables)
    requires req.SendCoins? && SendPosted(c, req, target, snapshot, writes)
    ensures Corresponds(cfg, writes) && DistinctRows(writes)
  {
    hide Corresponds, Reflected, HasAccount;
    var debit, credit := Debit(c, req), Credit(c, req, target);
    var sent, received := SendingRow(c, req, target), ReceivingRow(c, req, target);
    TwoPairsCorrespond(cfg, writes, debit, credit, sent, received);
    assert DistinctRows(writes) by {
      assert debit.id != credit.id && debit.sourceId != credit.sourceId && sent.id != received.id;
    }
  }

  lemma PurchaseCorresponds(cfg: Config, c: nat, req: Request, item: ShopItem, snapshot: Tables, writes: Tables)
    requires CatalogueOk(cfg) && item in cfg.items
    requires req.Buy? && BuyPosted(c, req, item, snapshot, writes)
    ensures Corresponds(cfg, writes) && DistinctRows(writes)
  {
    hide Reflected, Wrap64;
    var row, payment := PurchaseRow(c, req, item), Payment(c, req, item);
    PriceIsFound(cfg.items, item);
    assert row in writes.purchases && payment in writes.operations;
    assert PairedWithPurchase(cfg, payment, row);
  }

  lemma WritesCorrespond(cfg: Config, c: nat, req: Request, snapshot: Tables, writes: Tables, reply: Reply)
    requires CatalogueOk(cfg) && Posted(cfg, c, req, snapshot, writes, reply)
    ensures Corresponds(cfg, writes) && DistinctRows(writes)
  {
    hide SendPosted, BuyPosted;
    match req
    case SignIn(_, _) =>
    case SendCoins(target, _, _, _) =>
      TransferCorresponds(cfg, c, req, FindAccount(snapshot.accounts, target).value.id, snapshot, writes);
    case Buy(name, _, _, _) =>
      PurchaseCorresponds(cfg, c, req, FindItem(cfg.items, name).value, snapshot, writes);
  }

  /** Rows of one request on top of rows that carry none of its identifiers stay distinct. */
  lemma DistinctMerge(tables: Tables, writes: Tables, c: nat)
    requires DistinctRows(tables) && DistinctRows(writes) && Unmarked(tables, c) && Marked(writes, c)
    ensures DistinctRows(Merge(tables, writes))
  {
  }

  /** In every committed state the log and the documents pair off row by row. */
  lemma {:induction false} LogMatchesDocuments(cfg: Config, past: seq<Tables>, log: seq<Entry>, n: nat)
    requires CatalogueOk(cfg) && History.Valid(cfg, past, log) && n <= |log|
    ensures Corresponds(cfg, past[n]) && DistinctRows(past[n])
  {
    hide Posted, Corresponds, DistinctRows, Unmarked, Completes;
    EmptyCorresponds(cfg);
    if n > 0 {
      var e := log[n - 1];
      LogMatchesDocuments(cfg, past, log, n - 1);
      EntryPosted(cfg, past, log, n - 1);
      assert Justified(cfg, past, log, n - 1);
      UnmarkedBefore(cfg, past, log, n - 1, e.client);
      WritesCorrespond(cfg, e.client, e.req, past[e.began], e.writes, e.reply);
      WritesAreMarked(cfg, e.client, e.req, past[e.began], e.writes, e.reply);
      CorrespondsMerge(cfg, past[n - 1], e.writes);
      DistinctMerge(past[n - 1], e.writes, e.client);
    }
  }

  // ----- the two rows of a transfer -----

  ghost predicate Mirrored(sent: CoinTransfer, received: CoinTransfer) {
    && sent.kind.Sending? && received.kind.Receiving?
    && sent.owner == received.counterparty && sent.counterparty == received.owner
    && sent.amount == received.amount && sent.key == received.key
  }

  /** Rows 2k and 2k + 1 are the two sides of one transfer: the pairing is one to one by construction. */
  ghost predicate MirrorPairs(transfers: seq<CoinTransfer>) {
    && |transfers| % 2 == 0
    && forall k :: 0 <= k < |transfers| / 2 ==> Mirrored(transfers[2 * k], transfers[2 * k + 1])
  }

  lemma MirrorAppend(older: seq<CoinTransfer>, newer: seq<CoinTransfer>)
    requires MirrorPairs(older) && MirrorPairs(newer)
    ensures MirrorPairs(older + newer)
  {
    var m := |older| / 2;
    forall k | 0 <= k < |older + newer| / 2 ensures Mirrored((older + newer)[2 * k], (older + newer)[2 * k + 1]) {
      if k < m {
        assert Mirrored(older[2 * k], older[2 * k + 1]);
      } else {
        assert Mirrored(newer[2 * (k - m)], newer[2 * (k - m) + 1]);
      }
    }
  }

  lemma WritesMirror(cfg: Config, c: nat, req: Request, snapshot: Tables, writes: Tables, reply: Reply)
    requires Posted(cfg, c, req, snapshot, writes, reply)
    ensures MirrorPairs(writes.transfers)
  {
  }

  lemma {:induction false} TransfersMirror(cfg: Config, past: seq<Tables>, log: seq<Entry>, n: nat)
    requires History.Valid(cfg, past, log) && n <= |log|
    ensures MirrorPairs(past[n].transfers)
  {
    hide Justified, Posted, MirrorPairs;
    EmptyCorresponds(cfg);
    if n > 0 {
      var e := log[n - 1];
      TransfersMirror(cfg, past, log, n - 1);
      EntryPosted(cfg, past, log, n - 1);
      WritesMirror(cfg, e.client, e.req, past[e.began], e.writes, e.reply);
      MirrorAppend(past[n - 1].transfers, e.writes.transfers);
    }
  }

  function SentTo(owner: Id, other: Id): CoinTransfer -> int {
    (t: CoinTransfer) => if t.kind.Sending? && t.owner == owner && t.counterparty == other then t.amount else 0
  }

  function ReceivedFrom(owner: Id, other: Id): CoinTransfer -> int {
    (t: CoinTransfer) => if t.kind.Receiving? && t.owner == owner && t.counterparty == other then t.amount else 0
  }

  /** What A's rows say it sent to B is what B's rows say it received from A. */
  lemma {:induction false} MirrorSums(transfers: seq<CoinTransfer>, a: Id, b: Id)
    requires MirrorPairs(transfers)
    ensures SumBy(transfers, SentTo(a, b)) == SumBy(transfers, ReceivedFrom(b, a))
  {
    if transfers != [] {
      var two, rest := transfers[..2], transfers[2..];
      assert transfers == two + rest && two == [transfers[0], transfers[1]];
      forall k | 0 <= k < |rest| / 2 ensures Mirrored(rest[2 * k], rest[2 * k + 1]) {
        assert Mirrored(transfers[2 * (k + 1)], transfers[2 * (k + 1) + 1]);
      }
      MirrorSums(rest, a, b);
      assert Mirrored(transfers[2 * 0], transfers[2 * 0 + 1]);
      SumByAppend(two, rest, SentTo(a, b));
      SumByAppend(two, rest, ReceivedFrom(b, a));
      SumByTwo(transfers[0], transfers[1], SentTo(a, b));
      SumByTwo(transfers[0], transfers[1], ReceivedFrom(b, a));
    }
  }

  // ----- welcome deposits -----

  function DepositCount(id: Id): Operation -> int {
    (o: Operation) => if o.source.FromDeposit? && o.account == id then 1 else 0
  }

  /** Exactly one deposit of the configured amount when that is positive, none otherwise. */
  ghost predicate Welcomed(cfg: Config, operations: seq<Operation>, id: Id) {
    && SumBy(operations, DepositCount(id)) == (if cfg.newAccountAmount > 0 then 1 else 0)
    && SumBy(operations, DepositOn(id)) == (if cfg.newAccountAmount > 0 then cfg.newAccountAmount else 0)
  }

  lemma DepositsOfWrites(cfg: Config, c: nat, req: Request, snapshot: Tables, writes: Tables, reply: Reply, id: Id)
    requires Posted(cfg, c, req, snapshot, writes, reply)
    ensures forall a :: a in writes.accounts ==> a.id == Uuid(c, 0)
    ensures writes.accounts != [] && id == Uuid(c, 0) ==> Welcomed(cfg, writes.operations, id)
    ensures writes.accounts == [] || id != Uuid(c, 0) ==>
              SumBy(writes.operations, DepositCount(id)) == 0 && SumBy(writes.operations, DepositOn(id)) == 0
  {
    if req.SignIn? {
      SumByTwo(Welcome(cfg, c), Welcome(cfg, c), DepositOn(id));
      SumByTwo(Welcome(cfg, c), Welcome(cfg, c), DepositCount(id));
    } else {
      SumByZero(writes.operations, DepositOn(id));
      SumByZero(writes.operations, DepositCount(id));
    }
  }

  /** Deposits an account had, and those a later commit adds to it. */
  lemma WelcomeMerge(cfg: Config, tables: Tables, writes: Tables, id: Id)
    requires var older, newer := tables.operations, writes.operations;
             || (Welcomed(cfg, older, id) && SumBy(newer, DepositCount(id)) == 0 && SumBy(newer, DepositOn(id)) == 0)
             || (Welcomed(cfg, newer, id) && SumBy(older, DepositCount(id)) == 0 && SumBy(older, DepositOn(id)) == 0)
    ensures Welcomed(cfg, Merge(tables, writes).operations, id)
  {
    SumByAppend(tables.operations, writes.operations, DepositOn(id));
    SumByAppend(tables.operations, writes.operations, DepositCount(id));
  }

  /** Each account of every committed state has had its one welcome deposit and no other. */
  lemma {:induction false} OneWelcomeEach(cfg: Config, past: seq<Tables>, log: seq<Entry>, n: nat, a: Account)
    requires History.Valid(cfg, past, log) && n <= |log| && a in past[n].accounts
    ensures Welcomed(cfg, past[n].operations, a.id)
  {
    hide Completes, Posted, Reflected, SumBy, Welcomed;
    if n > 0 {
      var e := log[n - 1];
      EntryPosted(cfg, past, log, n - 1);
      assert Justified(cfg, past, log, n - 1);
      DepositsOfWrites(cfg, e.client, e.req, past[e.began], e.writes, e.reply, a.id);
      if a in past[n - 1].accounts {
        OneWelcomeEach(cfg, past, log, n - 1, a);
        UnmarkedBefore(cfg, past, log, n - 1, e.client);
      } else {
        NewAccountHasNoOperations(cfg, past, log, e.client, n - 1);
        NoDepositsWithoutOperations(cfg, past, log, n - 1, a.id);
      }
      WelcomeMerge(cfg, past[n - 1], e.writes, a.id);
    }
  }

  lemma NoDepositsWithoutOperations(cfg: Config, past: seq<Tables>, log: seq<Entry>, n: nat, id: Id)
    requires History.Valid(cfg, past, log) && n <= |log| && !HasAccount(past[n].accounts, id)
    ensures SumBy(past[n].operations, DepositCount(id)) == 0 && SumBy(past[n].operations, DepositOn(id)) == 0
  {
    ReferencesHold(cfg, past, log, n);
    SumByZero(past[n].operations, DepositOn(id));
    SumByZero(past[n].operations, DepositCount(id));
  }
}
