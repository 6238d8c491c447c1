/**
 Three runs in which the service falls short: an identity key used twice, a purchase charged less than it costs, and a
 balance that no longer fits.
 */
module Witnesses {
  import opened Schema
  import opened Program
  import opened Store
  import opened History
  import opened Posting
  import opened Serial
  import opened Progress
  import opened Bounds
  import opened Documents
  import opened Guarantees

  /** Nobody is in the middle of a request. */
  ghost predicate Idle(w: World) {
    forall d :: d in w.clients ==> w.clients[d].stage.Ended?
  }

  lemma IdleIsFree(cfg: Config, w: World, c: nat, req: Request)
    requires Idle(w)
    ensures FreeFor(cfg, w, c, req)
  {
  }

  function Joining(name: string): Request {
    SignIn(name, Some("hash"))
  }

  /** The tables after request c signed up under that name. */
  function JoinedBy(cfg: Config, tables: Tables, c: nat, name: string): Tables
    requires 0 < cfg.newAccountAmount
  {
    tables.(accounts := tables.accounts + [Account(Uuid(c, 0), name, "hash")],
            operations := tables.operations + [Welcome(cfg, c)],
            balances := tables.balances[Uuid(c, 0) := cfg.newAccountAmount])
  }

  lemma JoiningIsServed(cfg: Config, tables: Tables, c: nat, name: string)
    requires 0 < cfg.newAccountAmount && FindAccount(tables.accounts, name).None? && BalanceOf(tables, Uuid(c, 0)) == 0
    ensures Serve(cfg, tables, c, Joining(name))
         == Some(Served(JoinedBy(cfg, tables, c, name), SignedIn(Account(Uuid(c, 0), name, "hash"))))
  {
  }

  /** A sign-up under a new name, run while nobody else is active. */
  lemma Joins(cfg: Config, acts: seq<Action>, w: World, c: nat, name: string) returns (acts': seq<Action>, w': World)
    requires Reached(cfg, acts, w) && Idle(w) && c !in w.clients
    requires 0 < cfg.newAccountAmount && FindAccount(Committed(w).accounts, name).None?
    ensures Reached(cfg, acts', w') && Idle(w') && w'.clients.Keys == w.clients.Keys + {c}
    ensures Committed(w') == JoinedBy(cfg, Committed(w), c, name)
  {
    hide Serve, Enabled, Next, CommitsAlone;
    CommittedTables(cfg, acts, w, c);
    JoiningIsServed(cfg, Committed(w), c, name);
    w' := ServedCommitsAlone(cfg, acts, w, c, Joining(name));
    CommittedAloneIsServed(cfg, acts, w, c, Joining(name), w');
    acts' := AloneExtends(cfg, acts, w, c, Joining(name), w');
  }

  lemma NothingYet(cfg: Config)
    ensures Reached(cfg, [], INITIAL) && Idle(INITIAL) && Committed(INITIAL) == EMPTY
  {
  }

  lemma AloneExtends(cfg: Config, acts: seq<Action>, w: World, c: nat, req: Request, w': World)
    returns (acts': seq<Action>)
    requires Reached(cfg, acts, w) && CommitsAlone(cfg, w, c, req, w')
    ensures Reached(cfg, acts', w')
  {
    var more :| Alone(more, c) && Leads(cfg, w, [Begin(c, req)] + more, w') && |w'.log| == |w.log| + 1;
    LeadsAppend(cfg, INITIAL, acts, w, [Begin(c, req)] + more, w');
    acts' := acts + ([Begin(c, req)] + more);
  }

  // ----- one key, two transfers -----

  const HUNDRED: Config := Config([], 100)

  const NAMES: seq<string> := ["a", "b", "c", "d"]

  /** The tables after the first k of four sign-ups. */
  function Four(k: nat): Tables
    requires k <= 4
  {
    if k == 0 then EMPTY else JoinedBy(HUNDRED, Four(k - 1), k - 1, NAMES[k - 1])
  }

  lemma {:induction false} FourHave(k: nat, j: nat)
    requires k <= 4 && j < 4
    ensures Four(k).transfers == []
    ensures FindAccount(Four(k).accounts, NAMES[j])
         == if j < k then Some(Account(Uuid(j, 0), NAMES[j], "hash")) else None
    ensures j < k ==> BalanceOf(Four(k), Uuid(j, 0)) == 100 && HasAccount(Four(k).accounts, Uuid(j, 0))
  {
    if k > 0 {
      FourHave(k - 1, j);
      var joined := Account(Uuid(k - 1, 0), NAMES[k - 1], "hash");
      FindAccountAppend(Four(k - 1).accounts, [joined], NAMES[j]);
      NamesDiffer(j, k - 1);
      assert j < k ==> Account(Uuid(j, 0), NAMES[j], "hash") in Four(k).accounts;
    }
  }

  lemma NamesDiffer(i: nat, j: nat)
    requires i < 4 && j < 4
    ensures NAMES[i] == NAMES[j] <==> i == j
  {
    assert NAMES[i][0] == NAMES[j][0] ==> i == j;
  }

  lemma {:induction false} FourJoin(k: nat) returns (acts: seq<Action>, w: World)
    requires k <= 4
    ensures Reached(HUNDRED, acts, w) && Idle(w) && Committed(w) == Four(k)
    ensures forall c: nat :: c in w.clients <==> c < k
  {
    hide Reached, Idle, Committed, JoinedBy;
    if k == 0 {
      NothingYet(HUNDRED);
      acts, w := [], INITIAL;
    } else {
      acts, w := FourJoin(k - 1);
      FourHave(k - 1, k - 1);
      acts, w := Joins(HUNDRED, acts, w, k - 1, NAMES[k - 1]);
    }
  }

  function TenCoins(from: nat, to: nat): Request
    requires to < 4
  {
    SendCoins(NAMES[to], Uuid(from, 0), 10, Some(Uuid(9, 9)))
  }

  lemma TenCoinsAreServed(c: nat, from: nat, to: nat)
    requires from < 4 && to < 4 && from != to
    ensures Serve(HUNDRED, Four(4), c, TenCoins(from, to)).Some?
  {
    hide Four;
    FourHave(4, from);
    FourHave(4, to);
  }

  /** A transfer of ten coins writes the balance rows of its two accounts only. */
  lemma TenCoinsWrite(c: nat, from: nat, to: nat, writes: Tables, reply: Reply)
    requires from < 4 && to < 4 && from != to && Completes(HUNDRED, c, TenCoins(from, to), Four(4), writes, reply)
    ensures writes.balances.Keys <= {Uuid(from, 0), Uuid(to, 0)}
  {
    hide Four, Completes, SumOf;
    FourHave(4, to);
    CompletesMeansPosted(HUNDRED, c, TenCoins(from, to), Four(4), writes, reply);
  }

  /** Two transfers of ten coins with one key, a to b and c to d, both commit, and then the serial replay fails. */
  lemma OneKeyCommitsTwice() returns (acts: seq<Action>, w: World)
    ensures Reached(HUNDRED, acts, w) && |w.log| >= 2
    ensures w.log[|w.log| - 2].req == TenCoins(0, 1) && w.log[|w.log| - 1].req == TenCoins(2, 3)
    ensures Replay(HUNDRED, w.log, |w.log|) != Some(Committed(w))
  {
    hide Reached, Serve, Completes, Replay, Four, BalancesAreSums, SumOf;
    var before, joined := FourJoin(4);
    TenCoinsAreServed(4, 0, 1);
    TenCoinsAreServed(5, 2, 3);
    CommittedTables(HUNDRED, before, joined, 4);
    CommittedTables(HUNDRED, before, joined, 5);
    var one, x := ServedCompletes(HUNDRED, Four(4), 4, TenCoins(0, 1));
    var two, y := ServedCompletes(HUNDRED, Four(4), 5, TenCoins(2, 3));
    TenCoinsWrite(4, 0, 1, one, x);
    TenCoinsWrite(5, 2, 3, two, y);
    var more;
    more, w := OneKeyCanCommitTwice(HUNDRED, before, joined, 4, 5, TenCoins(0, 1), TenCoins(2, 3), one, two, x, y);
    acts := before + more;
  }

  // ----- a purchase that is charged less than it costs -----

  const CHEAP: Config := Config([ShopItem(Uuid(0, 9), "pen", 10)], 4)

  /** So many pens at 10 that the product is 2^64 + 4. */
  const PENS: Request := Buy("pen", Uuid(0, 0), 1844674407370955162, None)

  lemma PensAreServed(tables: Tables)
    requires tables == JoinedBy(CHEAP, EMPTY, 0, "a")
    ensures Serve(CHEAP, tables, 1, PENS).Some?
    ensures var after := Serve(CHEAP, tables, 1, PENS).value.tables;
            && after.purchases == [ShopPurchase(Uuid(1, 0), Uuid(0, 9), Uuid(0, 0), 1844674407370955162, None)]
            && after.balances == map[Uuid(0, 0) := 0]
  {
    var owner := Account(Uuid(0, 0), "a", "hash");
    assert owner in tables.accounts;
    assert Payment(1, PENS, CHEAP.items[0]).amount == -4;
  }

  /**
   One sign-up with four coins, then that purchase, which commits: four coins are charged, and the balances are not the
   deposits minus price times quantity.
   */
  lemma WrappedPurchaseCommits() returns (acts: seq<Action>, w: World)
    ensures Reached(CHEAP, acts, w) && 1 in w.clients && w.clients[1].req == PENS && Landed(w.clients[1].stage)
    ensures |Committed(w).purchases| == 1 && BalanceOf(Committed(w), Uuid(0, 0)) == 0
    ensures Charge(CHEAP, Committed(w).purchases[0]) == 4
    ensures Cost(CHEAP, Committed(w).purchases[0]) == 0x1_0000_0000_0000_0004
    ensures TotalBalance(Committed(w))
         != SumBy(Committed(w).operations, Deposit()) - SumBy(Committed(w).purchases, CostBy(CHEAP))
  {
    hide Reached, Serve, CommitsAlone, TotalBalance, JoinedBy, SumBy, Idle, FreeFor;
    NothingYet(CHEAP);
    var before, joined := Joins(CHEAP, [], INITIAL, 0, "a");
    PensAreServed(Committed(joined));
    IdleIsFree(CHEAP, joined, 1, PENS);
    w := ServedCommitsAlone(CHEAP, before, joined, 1, PENS);
    CommittedAloneIsServed(CHEAP, before, joined, 1, PENS, w);
    acts := AloneExtends(CHEAP, before, joined, 1, PENS, w);
    CoinsAreConserved(CHEAP, acts, w, |w.log|);
    assert Committed(w).purchases[0] in Committed(w).purchases;
  }

  // ----- a balance that does not fit -----

  const PEN: Config := Config([ShopItem(Uuid(0, 9), "pen", 1)], 1)

  /** As many pens below zero as int64 allows: neither the product nor its negation wraps. */
  const UNBUY: Request := Buy("pen", Uuid(0, 0), -MAX_INT64, None)

  /** The insert of the operation, by a request that has just looked up its item. */
  lemma PaymentIsInserted(cfg: Config, w: World, c: nat, req: Request, item: ShopItem, began: nat) returns (w': World)
    requires req.Buy? && HasAccount(At(w.past, began).accounts, req.buyer) && began <= |w.log|
    requires c in w.clients
    requires w.clients[c] == Client(req, Writing(BuyLines(c, req, item), 0, Bought(PurchaseRow(c, req, item))),
                                    Tx(began, EMPTY, Active))
    ensures Leads(cfg, w, [Exec(c, Normal(true))], w') && w'.past == w.past
    ensures Upserting(w', c, req.buyer)
    ensures c in w'.clients && w'.clients[c].req == req
    ensures w'.clients[c].tx == Tx(began, EMPTY.(operations := [Payment(c, req, item)]), Active)
  {
    hide HasAccount, Blocked;
    MergeEmpty(At(w.past, began));
    NeverWaits(w, c, InsertOperation(Payment(c, req, item)));
    assert [] + [Payment(c, req, item)] == [Payment(c, req, item)];
    w' := Next(cfg, w, Exec(c, Normal(true)));
    assert [Exec(c, Normal(true))][1..] == [];
  }

  /** A purchase without key, of an item that exists by an account that exists, gets as far as its upsert. */
  lemma BuyReachesUpsert(cfg: Config, acts: seq<Action>, w: World, c: nat, req: Request, item: ShopItem)
    returns (acts': seq<Action>, w': World)
    requires Reached(cfg, acts, w) && Idle(w) && c !in w.clients
    requires req.Buy? && req.key.None? && FindItem(cfg.items, req.item) == Some(item)
    requires HasAccount(Committed(w).accounts, req.buyer)
    ensures Reached(cfg, acts', w') && Upserting(w', c, req.buyer) && w'.past == w.past
    ensures c in w'.clients && w'.clients[c].req == req
    ensures w'.clients[c].tx == Tx(|w.log|, EMPTY.(operations := [Payment(c, req, item)]), Active)
  {
    hide HasAccount, Enabled, Upserting, PlanOf, Committed;
    var tx := Tx(|w.log|, EMPTY, Active);
    var begun := AtStage(w, c, Client(req, FirstStage(req), tx));
    BeginLeads(cfg, w, c, req);
    BuyPlan(cfg, c, req, At(begun.past, tx.began), item);
    var lookups := LookupsRun(cfg, begun, c, req, tx);
    var writing := Writing(BuyLines(c, req, item), 0, Bought(PurchaseRow(c, req, item)));
    var found := AtStage(begun, c, Client(req, writing, tx));
    assert AtStage(begun, c, begun.clients[c]) == begun;
    w' := PaymentIsInserted(cfg, found, c, req, item, |w.log|) by { CommittedIs(w); }
    LeadsAppend(cfg, w, [Begin(c, req)], begun, lookups, found);
    LeadsAppend(cfg, w, [Begin(c, req)] + lookups, found, [Exec(c, Normal(true))], w');
    acts' := acts + ([Begin(c, req)] + lookups + [Exec(c, Normal(true))]);
    LeadsAppend(cfg, INITIAL, acts, w, [Begin(c, req)] + lookups + [Exec(c, Normal(true))], w');
  }

  lemma CommittedIs(w: World)
    ensures Committed(w) == At(w.past, |w.log|)
  {
  }

  lemma BuyPlan(cfg: Config, c: nat, req: Request, snapshot: Tables, item: ShopItem)
    requires req.Buy? && FindItem(cfg.items, req.item) == Some(item)
    ensures PlanOf(cfg, c, req, snapshot) == Some(Plan(BuyLines(c, req, item), Bought(PurchaseRow(c, req, item))))
  {
  }

  lemma BeginLeads(cfg: Config, w: World, c: nat, req: Request)
    requires c !in w.clients && req.Buy?
    ensures Leads(cfg, w, [Begin(c, req)], AtStage(w, c, Client(req, FirstStage(req), Tx(|w.log|, EMPTY, Active))))
  {
    assert [Begin(c, req)][1..] == [];
  }

  /**
   One sign-up with one coin, then begin, lookup and insert of that purchase: the run stands at the upsert, and the
   sum it is about to store exceeds int64.
   */
  lemma NegativeQuantityOverflows() returns (acts: seq<Action>, w: World)
    ensures Reached(PEN, acts, w) && Upserting(w, 1, Uuid(0, 0)) && !FitsInt64(UpsertSum(w, 1, Uuid(0, 0)))
    ensures w.clients[1].req == UNBUY && Product(PEN, UNBUY) == -MAX_INT64
  {
    hide Reached, Upserting, BuyLines;
    assert Reached(PEN, [], INITIAL) by { NothingYet(PEN); }
    var before, joined := Joins(PEN, [], INITIAL, 0, "a");
    assert Account(Uuid(0, 0), "a", "hash") in Committed(joined).accounts;
    acts, w := BuyReachesUpsert(PEN, before, joined, 1, UNBUY, PEN.items[0]);
    var one, payment := Welcome(PEN, 0), Payment(1, UNBUY, PEN.items[0]);
    assert Merge(Committed(joined), w.clients[1].tx.writes).operations == [one, payment];
    SumByTwo(one, payment, AmountOn(Uuid(0, 0)));
  }
}
