/** Coin history, inventory and the info page: several statements, with commits of others in between. */
module Views {
  import opened Schema
  import opened Failures
  import opened Store
  import opened History
  import opened Posting
  import opened Invariant
  import opened Ledger
  import opened Documents
  import opened Grouping
  import opened DatabaseServer
  import Bounds

  datatype HistoryItem = HistoryItem(account: Option<Account>, amount: int)
  datatype InventoryItem = InventoryItem(item: Option<ShopItem>, quantity: int)
  datatype Named = Named(name: string, amount: int)
  datatype Info = Info(coins: int, inventory: seq<Named>, received: seq<Named>, sent: seq<Named>)

  /** Every group found its account: same number, same order, same amounts. */
  ghost predicate JoinedAccounts(accounts: seq<Account>, groups: seq<Group>, items: seq<HistoryItem>) {
    && |items| == |groups|
    && forall k :: 0 <= k < |items| ==>
         && items[k].amount == groups[k].total
         && items[k].account.Some? && items[k].account.value in accounts && items[k].account.value.id == groups[k].id
  }

  ghost predicate JoinedItems(catalogue: seq<ShopItem>, groups: seq<Group>, items: seq<InventoryItem>) {
    && |items| == |groups|
    && forall k :: 0 <= k < |items| ==>
         && items[k].quantity == groups[k].total
         && items[k].item.Some? && items[k].item.value in catalogue && items[k].item.value.id == groups[k].id
  }

  // ----- why every group finds its partner -----

  /** A counterparty in a grouped history is an account, at that commit and at every later one. */
  lemma CounterpartiesExist(cfg: Config, past: seq<Tables>, log: seq<Entry>, n: nat, m: nat, owner: Id,
                            kind: CoinTransferType, groups: seq<Group>)
    requires History.Valid(cfg, past, log) && n <= m <= |log|
    requires Grouped(HistoryRows(past[n].transfers, owner, kind), groups)
    ensures forall g :: g in groups ==> HasAccount(past[m].accounts, g.id)
  {
    hide Justified;
    ReferencesHold(cfg, past, log, n);
    GrownBetween(cfg, past, log, n, m);
    forall g | g in groups ensures HasAccount(past[m].accounts, g.id) {
      HistoryRowsAre(past[n].transfers, owner, kind, g.id);
      var t :| t in past[n].transfers && t.counterparty == g.id;
      var a :| a in past[n].accounts && a.id == g.id;
      assert a in past[m].accounts;
    }
  }

  lemma {:induction false} PurchasedItemsExist(cfg: Config, past: seq<Tables>, log: seq<Entry>, n: nat)
    requires History.Valid(cfg, past, log) && n <= |log|
    ensures forall p :: p in past[n].purchases ==> HasItem(cfg.items, p.item)
  {
    hide Justified, Reflected;
    if n > 0 {
      PurchasedItemsExist(cfg, past, log, n - 1);
      EntryPosted(cfg, past, log, n - 1);
    }
  }

  lemma {:induction false} InventoryRowsAre(purchases: seq<ShopPurchase>, account: Id, id: Id)
    ensures HasGroup(InventoryRows(purchases, account), id)
       ==> exists p :: p in purchases && p.account == account && p.item == id
  {
    if purchases != [] {
      InventoryRowsAre(purchases[1..], account, id);
      assert forall g :: g in InventoryRows(purchases, account) ==>
        g in InventoryRows(purchases[1..], account)
        || (purchases[0].account == account && g == Group(purchases[0].item, purchases[0].quantity));
    }
  }

  lemma InventoryItemsExist(cfg: Config, past: seq<Tables>, log: seq<Entry>, n: nat, account: Id, groups: seq<Group>)
    requires History.Valid(cfg, past, log) && n <= |log|
    requires Grouped(InventoryRows(past[n].purchases, account), groups)
    ensures forall g :: g in groups ==> HasItem(cfg.items, g.id)
  {
    hide Justified;
    PurchasedItemsExist(cfg, past, log, n);
    forall g | g in groups ensures HasItem(cfg.items, g.id) {
      InventoryRowsAre(past[n].purchases, account, g.id);
    }
  }

  // ----- when a view may fail -----

  /** A group's sum does not fit int64, so it cannot be scanned. */
  ghost predicate Overflows(rows: seq<Group>) {
    exists id :: HasGroup(rows, id) && !FitsInt64(SumBy(rows, TotalFor(id)))
  }

  lemma GroupOverflows(rows: seq<Group>, groups: seq<Group>, g: Group)
    requires Grouped(rows, groups) && g in groups && !FitsInt64(g.total)
    ensures Overflows(rows)
  {
  }

  /** Nothing but a failed read, or a sum over the transfers of `tables` that cannot be scanned, explains this error. */
  ghost predicate HistoryFailed(db: Server, n: nat, failure: Failure, tables: Tables, account: Id,
                                kind: CoinTransferType)
    reads db
  {
    || db.ReadFailed(n, failure)
    || (|db.readErrors| == n && failure == From(Internal) && Overflows(HistoryRows(tables.transfers, account, kind)))
  }

  ghost predicate InventoryFailed(db: Server, n: nat, failure: Failure, tables: Tables, account: Id)
    reads db
  {
    || db.ReadFailed(n, failure)
    || (|db.readErrors| == n && failure == From(Internal) && Overflows(InventoryRows(tables.purchases, account)))
  }

  // ----- internal/repository -----

  /** The rows of the grouped query, scanned one by one: a sum beyond int64 cannot be scanned. */
  method GetAggrCoinHistoryByAccountID(db: Server, account: Id, kind: CoinTransferType) returns (r: Result<seq<Group>>)
    requires db.Valid()
    modifies db
    ensures db.Valid() && old(db.trace) <= db.trace
    ensures if r.Ok? then db.readErrors == old(db.readErrors)
            else HistoryFailed(db, old(|db.readErrors|), r.error, Committed(db.world), account, kind)
    ensures r.Ok? ==> Grouped(HistoryRows(Committed(db.world).transfers, account, kind), r.value)
    ensures r.Ok? ==> forall g :: g in r.value ==> FitsInt64(g.total)
  {
    var rows := db.SelectHistory(account, kind);
    if rows.Err? { return rows; }
    var result := [];
    for i := 0 to |rows.value|
      invariant result == rows.value[..i]
      invariant forall g :: g in result ==> FitsInt64(g.total)
    {
      if !FitsInt64(rows.value[i].total) {
        GroupOverflows(HistoryRows(Committed(db.world).transfers, account, kind), rows.value, rows.value[i]);
        return Err(From(Internal));
      }
      result := result + [Group(rows.value[i].id, rows.value[i].total)];
    }
    assert result == rows.value;
    return Ok(result);
  }

  method AggrInventoryByAccountID(db: Server, account: Id) returns (r: Result<seq<Group>>)
    requires db.Valid()
    modifies db
    ensures db.Valid() && old(db.trace) <= db.trace
    ensures if r.Ok? then db.readErrors == old(db.readErrors)
            else InventoryFailed(db, old(|db.readErrors|), r.error, Committed(db.world), account)
    ensures r.Ok? ==> Grouped(InventoryRows(Committed(db.world).purchases, account), r.value)
    ensures r.Ok? ==> forall g :: g in r.value ==> FitsInt64(g.total)
  {
    var rows := db.SelectInventory(account);
    if rows.Err? { return rows; }
    var result := [];
    for i := 0 to |rows.value|
      invariant result == rows.value[..i]
      invariant forall g :: g in result ==> FitsInt64(g.total)
    {
      if !FitsInt64(rows.value[i].total) {
        GroupOverflows(InventoryRows(Committed(db.world).purchases, account), rows.value, rows.value[i]);
        return Err(From(Internal));
      }
      result := result + [Group(rows.value[i].id, rows.value[i].total)];
    }
    assert result == rows.value;
    return Ok(result);
  }

  /** The accounts among the ids, by id. */
  method FindItemsByIDs(db: Server, ids: seq<Id>) returns (r: Result<map<Id, Account>>)
    requires db.Valid()
    modifies db
    ensures db.Valid() && old(db.trace) <= db.trace
    ensures if r.Ok? then db.readErrors == old(db.readErrors) else db.ReadFailed(old(|db.readErrors|), r.error)
    ensures r.Ok? ==> forall id :: id in r.value <==> id in ids && HasAccount(Committed(db.world).accounts, id)
    ensures r.Ok? ==> forall id :: id in r.value ==> r.value[id].id == id && r.value[id] in Committed(db.world).accounts
  {
    var rows := db.SelectAccounts(ids);
    if rows.Err? { return Err(rows.error); }
    var result: map<Id, Account> := map[];
    for i := 0 to |rows.value|
      invariant forall id :: id in result <==> exists k :: 0 <= k < i && rows.value[k].id == id
      invariant forall id :: id in result ==> result[id].id == id && result[id] in rows.value
    {
      result := result[rows.value[i].id := rows.value[i]];
    }
    forall id ensures id in result <==> id in ids && HasAccount(Committed(db.world).accounts, id) {
      if id in ids && HasAccount(Committed(db.world).accounts, id) {
        var a :| a in Committed(db.world).accounts && a.id == id;
        assert a in rows.value;
      }
    }
    return Ok(result);
  }

  method FindShopItemsByIDs(db: Server, ids: seq<Id>) returns (r: Result<map<Id, ShopItem>>)
    requires db.Valid()
    modifies db
    ensures db.Valid() && old(db.trace) <= db.trace
    ensures if r.Ok? then db.readErrors == old(db.readErrors) else db.ReadFailed(old(|db.readErrors|), r.error)
    ensures r.Ok? ==> forall id :: id in r.value <==> id in ids && HasItem(db.cfg.items, id)
    ensures r.Ok? ==> forall id :: id in r.value ==> r.value[id].id == id && r.value[id] in db.cfg.items
  {
    var rows := db.SelectItems(ids);
    if rows.Err? { return Err(rows.error); }
    var result: map<Id, ShopItem> := map[];
    for i := 0 to |rows.value|
      invariant forall id :: id in result <==> exists k :: 0 <= k < i && rows.value[k].id == id
      invariant forall id :: id in result ==> result[id].id == id && result[id] in rows.value
    {
      result := result[rows.value[i].id := rows.value[i]];
    }
    forall id ensures id in result <==> id in ids && HasItem(db.cfg.items, id) {
      if id in ids && HasItem(db.cfg.items, id) {
        var x :| x in db.cfg.items && x.id == id;
        assert x in rows.value;
      }
    }
    return Ok(result);
  }

  // ----- internal/usecase -----

  /** The first loop: the ids to look up. */
  method IdsOf(groups: seq<Group>) returns (ids: seq<Id>)
    ensures |ids| == |groups| && forall k :: 0 <= k < |ids| ==> ids[k] == groups[k].id
    ensures forall g :: g in groups ==> g.id in ids
  {
    ids := [];
    for i := 0 to |groups|
      invariant |ids| == i && forall k :: 0 <= k < i ==> ids[k] == groups[k].id
    {
      ids := ids + [groups[i].id];
    }
    forall g | g in groups ensures g.id in ids {
      var k :| 0 <= k < |groups| && groups[k] == g;
      assert ids[k] == g.id;
    }
  }

  /** The second loop: each group with the account found for it, or with none. */
  method JoinAccounts(groups: seq<Group>, found: map<Id, Account>) returns (result: seq<HistoryItem>)
    ensures |result| == |groups|
    ensures forall k :: 0 <= k < |result| ==>
              result[k] == HistoryItem(if groups[k].id in found then Some(found[groups[k].id]) else None,
                                       groups[k].total)
  {
    result := [];
    for i := 0 to |groups|
      invariant |result| == i
      invariant forall k :: 0 <= k < i ==>
        result[k] == HistoryItem(if groups[k].id in found then Some(found[groups[k].id]) else None, groups[k].total)
    {
      var item := HistoryItem(None, groups[i].total);
      if groups[i].id in found {
        item := item.(account := Some(found[groups[i].id]));
      }
      result := result + [item];
    }
  }

  method JoinItems(groups: seq<Group>, found: map<Id, ShopItem>) returns (result: seq<InventoryItem>)
    ensures |result| == |groups|
    ensures forall k :: 0 <= k < |result| ==>
              result[k] == InventoryItem(if groups[k].id in found then Some(found[groups[k].id]) else None,
                                         groups[k].total)
  {
    result := [];
    for i := 0 to |groups|
      invariant |result| == i
      invariant forall k :: 0 <= k < i ==>
        result[k] == InventoryItem(if groups[k].id in found then Some(found[groups[k].id]) else None, groups[k].total)
    {
      var item := InventoryItem(None, groups[i].total);
      if groups[i].id in found {
        item := item.(item := Some(found[groups[i].id]));
      }
      result := result + [item];
    }
  }

  /**
   The grouped history joined with the accounts. The two statements see different commits; still every entry
   finds its account, in the same order and number. `n` is the commit at which the history was read.
   */
  method GetAggrCoinHistory(db: Server, account: Id, kind: CoinTransferType)
    returns (r: Result<seq<HistoryItem>>, ghost history: seq<Group>, ghost n: nat)
    requires db.Valid()
    modifies db
    ensures db.Valid() && old(db.trace) <= db.trace
    ensures old(|db.world.log|) <= n <= |db.world.log| < |db.world.past|
    ensures if r.Ok? then db.readErrors == old(db.readErrors)
            else HistoryFailed(db, old(|db.readErrors|), r.error, db.world.past[n], account, kind)
    ensures r.Ok? ==> Grouped(HistoryRows(db.world.past[n].transfers, account, kind), history)
    ensures r.Ok? ==> JoinedAccounts(Committed(db.world).accounts, history, r.value)
  {
    hide Grouped, HistoryRows, Reached;
    ghost var start, startTrace := db.world, db.trace;
    var groups := GetAggrCoinHistoryByAccountID(db, account, kind);
    ghost var read, readTrace := db.world, db.trace;
    CommittedGrows(db.cfg, startTrace, readTrace, start, read);
    n := |db.world.log|;
    if groups.Err? { return Err(groups.error), [], n; }
    history := groups.value;
    var ids := IdsOf(groups.value);
    var found := FindItemsByIDs(db, ids);
    CommittedGrows(db.cfg, readTrace, db.trace, read, db.world);
    if found.Err? { return Err(found.error), history, n; }
    ReachedInv(db.cfg, db.trace, db.world);
    CounterpartiesExist(db.cfg, db.world.past, db.world.log, n, |db.world.log|, account, kind, history);
    var result := JoinAccounts(groups.value, found.value);
    assert forall k :: 0 <= k < |history| ==> history[k] in history && history[k].id in found.value;
    r := Ok(result);
  }

  method GetInventory(db: Server, account: Id)
    returns (r: Result<seq<InventoryItem>>, ghost inventory: seq<Group>, ghost n: nat)
    requires db.Valid()
    modifies db
    ensures db.Valid() && old(db.trace) <= db.trace
    ensures old(|db.world.log|) <= n <= |db.world.log| < |db.world.past|
    ensures if r.Ok? then db.readErrors == old(db.readErrors)
            else InventoryFailed(db, old(|db.readErrors|), r.error, db.world.past[n], account)
    ensures r.Ok? ==> Grouped(InventoryRows(db.world.past[n].purchases, account), inventory)
    ensures r.Ok? ==> JoinedItems(db.cfg.items, inventory, r.value)
  {
    hide Grouped, InventoryRows, Reached;
    ghost var start, startTrace := db.world, db.trace;
    var groups := AggrInventoryByAccountID(db, account);
    ghost var read, readTrace := db.world, db.trace;
    CommittedGrows(db.cfg, startTrace, readTrace, start, read);
    n := |db.world.log|;
    if groups.Err? { return Err(groups.error), [], n; }
    inventory := groups.value;
    var ids := IdsOf(groups.value);
    var found := FindShopItemsByIDs(db, ids);
    CommittedGrows(db.cfg, readTrace, db.trace, read, db.world);
    if found.Err? { return Err(found.error), inventory, n; }
    ReachedInv(db.cfg, db.trace, db.world);
    InventoryItemsExist(db.cfg, db.world.past, db.world.log, n, account, inventory);
    var result := JoinItems(groups.value, found.value);
    assert forall k :: 0 <= k < |inventory| ==> inventory[k] in inventory && inventory[k].id in found.value;
    r := Ok(result);
  }

  // ----- internal/delivery/http/controller/info.go -----

  /** The commits at which the four parts of an answer were read, and the groups behind its lists. */
  datatype Reads = Reads(balanceAt: nat, inventoryAt: nat, receivedAt: nat, sentAt: nat,
                         inventory: seq<Group>, received: seq<Group>, sent: seq<Group>)

  ghost predicate AccountNamed(accounts: seq<Account>, id: Id, name: string) {
    exists a :: a in accounts && a.id == id && a.username == name
  }

  ghost predicate ItemNamed(catalogue: seq<ShopItem>, id: Id, name: string) {
    exists i :: i in catalogue && i.id == id && i.name == name
  }

  /** Each entry carries the username of the account its group is about. */
  ghost predicate AnsweredAccounts(accounts: seq<Account>, groups: seq<Group>, answer: seq<Named>) {
    && |answer| == |groups|
    && forall k :: 0 <= k < |answer| ==>
         answer[k].amount == groups[k].total && AccountNamed(accounts, groups[k].id, answer[k].name)
  }

  ghost predicate AnsweredItems(catalogue: seq<ShopItem>, groups: seq<Group>, answer: seq<Named>) {
    && |answer| == |groups|
    && forall k :: 0 <= k < |answer| ==>
         answer[k].amount == groups[k].total && ItemNamed(catalogue, groups[k].id, answer[k].name)
  }

  /** The loop that copies a joined history into the answer; it dereferences every account. */
  method NameAccounts(items: seq<HistoryItem>, ghost accounts: seq<Account>, ghost groups: seq<Group>)
    returns (answer: seq<Named>)
    requires JoinedAccounts(accounts, groups, items)
    ensures AnsweredAccounts(accounts, groups, answer)
  {
    answer := [];
    for i := 0 to |items|
      invariant |answer| == i
      invariant forall k :: 0 <= k < i ==>
        answer[k].amount == groups[k].total && AccountNamed(accounts, groups[k].id, answer[k].name)
    {
      answer := answer + [Named(items[i].account.value.username, items[i].amount)];
    }
  }

  method NameItems(items: seq<InventoryItem>, ghost catalogue: seq<ShopItem>, ghost groups: seq<Group>)
    returns (answer: seq<Named>)
    requires JoinedItems(catalogue, groups, items)
    ensures AnsweredItems(catalogue, groups, answer)
  {
    answer := [];
    for i := 0 to |items|
      invariant |answer| == i
      invariant forall k :: 0 <= k < i ==>
        answer[k].amount == groups[k].total && ItemNamed(catalogue, groups[k].id, answer[k].name)
    {
      var name := if items[i].item.Some? then items[i].item.value.name else "";
      answer := answer + [Named(name, items[i].quantity)];
    }
  }

  lemma AnsweredLater(earlier: Tables, later: Tables, groups: seq<Group>, answer: seq<Named>)
    requires Grown(earlier, later) && AnsweredAccounts(earlier.accounts, groups, answer)
    ensures AnsweredAccounts(later.accounts, groups, answer)
  {
    forall k | 0 <= k < |answer| ensures AccountNamed(later.accounts, groups[k].id, answer[k].name) {
      assert AccountNamed(earlier.accounts, groups[k].id, answer[k].name);
      var a :| a in earlier.accounts && a.id == groups[k].id && a.username == answer[k].name;
      assert a in later.accounts;
    }
  }

  /**
   Nothing but a failed read, or a sum committed at some commit from m on that cannot be scanned, explains this error.
   */
  ghost predicate PageFailed(db: Server, m: nat, n: nat, failure: Failure, account: Id)
    reads db
  {
    || db.ReadFailed(n, failure)
    || exists k :: m <= k <= |db.world.log| && k < |db.world.past|
         && (|| InventoryFailed(db, n, failure, db.world.past[k], account)
             || HistoryFailed(db, n, failure, db.world.past[k], account, Receiving)
             || HistoryFailed(db, n, failure, db.world.past[k], account, Sending))
  }

  /** Four reads, each of some committed state since the request began; all accounts and items are found. */
  method InfoHandler(db: Server, account: Id) returns (r: Result<Info>, ghost seen: Reads)
    requires db.Valid()
    modifies db
    ensures db.Valid() && old(db.trace) <= db.trace
    ensures if r.Ok? then db.readErrors == old(db.readErrors)
            else PageFailed(db, old(|db.world.log|), old(|db.readErrors|), r.error, account)
    ensures r.Ok? ==>
              && old(|db.world.log|) <= seen.balanceAt <= seen.inventoryAt <= seen.receivedAt <= seen.sentAt
              && seen.sentAt <= |db.world.log| < |db.world.past|
              && r.value.coins == BalanceOf(db.world.past[seen.balanceAt], account)
    ensures r.Ok? ==>
              && Grouped(InventoryRows(db.world.past[seen.inventoryAt].purchases, account), seen.inventory)
              && AnsweredItems(db.cfg.items, seen.inventory, r.value.inventory)
    ensures r.Ok? ==>
              && Grouped(HistoryRows(db.world.past[seen.receivedAt].transfers, account, Receiving), seen.received)
              && AnsweredAccounts(Committed(db.world).accounts, seen.received, r.value.received)
    ensures r.Ok? ==>
              && Grouped(HistoryRows(db.world.past[seen.sentAt].transfers, account, Sending), seen.sent)
              && AnsweredAccounts(Committed(db.world).accounts, seen.sent, r.value.sent)
  {
    hide Grouped, Inv, Reached, HistoryRows, InventoryRows, AnsweredAccounts, AnsweredItems, JoinedAccounts,
      JoinedItems, HistoryFailed, InventoryFailed;
    seen := Reads(0, 0, 0, 0, [], [], []);
    ghost var w0, t0 := db.world, db.trace;

    var balance := db.SelectBalance(account);
    if balance.Err? { return Err(balance.error), seen; }
    var coins := if balance.value.Some? then balance.value.value else 0;
    ghost var w1, t1 := db.world, db.trace;
    CommittedGrows(db.cfg, t0, t1, w0, w1);

    var items, inventory, inventoryAt := GetInventory(db, account);
    if items.Err? { return Err(items.error), seen; }
    var inventoryOut := NameItems(items.value, db.cfg.items, inventory);
    ghost var w2, t2 := db.world, db.trace;
    CommittedGrows(db.cfg, t1, t2, w1, w2);

    var receivedItems, received, receivedAt := GetAggrCoinHistory(db, account, Receiving);
    if receivedItems.Err? { return Err(receivedItems.error), seen; }
    var receivedOut := NameAccounts(receivedItems.value, Committed(db.world).accounts, received);
    ghost var w3, t3 := db.world, db.trace;
    CommittedGrows(db.cfg, t2, t3, w2, w3);

    var sentItems, sent, sentAt := GetAggrCoinHistory(db, account, Sending);
    if sentItems.Err? { return Err(sentItems.error), seen; }
    var sentOut := NameAccounts(sentItems.value, Committed(db.world).accounts, sent);
    CommittedGrows(db.cfg, t3, db.trace, w3, db.world);
    AnsweredLater(Committed(w3), Committed(db.world), received, receivedOut);

    seen := Reads(|w1.log|, inventoryAt, receivedAt, sentAt, inventory, received, sent);
    r := Ok(Info(coins, inventoryOut, receivedOut, sentOut));
  }

  function AmountOf(): Named -> int {
    (x: Named) => x.amount
  }

  lemma {:induction false} AnswerTotal(accounts: seq<Account>, groups: seq<Group>, answer: seq<Named>)
    requires AnsweredAccounts(accounts, groups, answer)
    ensures SumBy(answer, AmountOf()) == SumBy(groups, Total())
  {
    if answer != [] {
      forall k | 0 <= k < |answer[1..]| ensures answer[1..][k].amount == groups[1..][k].total
                                          && AccountNamed(accounts, groups[1..][k].id, answer[1..][k].name) {
        assert AccountNamed(accounts, groups[k + 1].id, answer[k + 1].name);
      }
      AnswerTotal(accounts, groups[1..], answer[1..]);
    }
  }

  /** item_name is unique. */
  ghost predicate ItemNamesDistinct(cfg: Config) {
    forall x, y :: x in cfg.items && y in cfg.items && x.name == y.name ==> x == y
  }

  /** What an inventory entry of the page is worth: the price of the item of that name, times the quantity. */
  function Worth(cfg: Config): Named -> int {
    (x: Named) =>
      var item := FindItem(cfg.items, x.name);
      if item.Some? then item.value.price * x.amount else 0
  }

  lemma {:induction false} AnswerWorth(cfg: Config, groups: seq<Group>, answer: seq<Named>)
    requires CatalogueOk(cfg) && ItemNamesDistinct(cfg) && AnsweredItems(cfg.items, groups, answer)
    ensures SumBy(answer, Worth(cfg)) == SumBy(groups, Weighted(Price(cfg)))
  {
    if answer != [] {
      var item :| item in cfg.items && item.id == groups[0].id && item.name == answer[0].name;
      assert FindItem(cfg.items, answer[0].name) == Some(item);
      PriceIsFound(cfg.items, item);
      forall k | 0 <= k < |answer[1..]| ensures answer[1..][k].amount == groups[1..][k].total
                                          && ItemNamed(cfg.items, groups[1..][k].id, answer[1..][k].name) {
        assert ItemNamed(cfg.items, groups[k + 1].id, answer[k + 1].name);
      }
      AnswerWorth(cfg, groups[1..], answer[1..]);
    }
  }

  /**
   The coins on the page are what its own lists say: received minus sent minus price times quantity, plus deposits.
   */
  ghost predicate AddsUp(cfg: Config, tables: Tables, account: Id, info: Info) {
    info.coins
    == SumBy(tables.operations, DepositOn(account))
       + SumBy(info.received, AmountOf()) - SumBy(info.sent, AmountOf()) - SumBy(info.inventory, Worth(cfg))
  }

  /**
   When no commit came between the four reads, the page adds up, given non-negative prices, if and only if no purchase
   of this account has a product beyond 2^63.
   */
  lemma PageAddsUp(cfg: Config, acts: seq<Action>, w: World, account: Id, info: Info, seen: Reads, n: nat)
    requires CatalogueOk(cfg) && ItemNamesDistinct(cfg) && Reached(cfg, acts, w) && n <= |w.log|
    requires seen.balanceAt == seen.inventoryAt == seen.receivedAt == seen.sentAt == n
    requires info.coins == BalanceOf(Store.At(w.past, n), account)
    requires Grouped(InventoryRows(Store.At(w.past, n).purchases, account), seen.inventory)
    requires Grouped(HistoryRows(Store.At(w.past, n).transfers, account, Receiving), seen.received)
    requires Grouped(HistoryRows(Store.At(w.past, n).transfers, account, Sending), seen.sent)
    requires AnsweredItems(cfg.items, seen.inventory, info.inventory)
    requires AnsweredAccounts(Committed(w).accounts, seen.received, info.received)
    requires AnsweredAccounts(Committed(w).accounts, seen.sent, info.sent)
    ensures PricesOk(cfg) ==>
              (AddsUp(cfg, Store.At(w.past, n), account, info) <==>
                 forall p :: p in Store.At(w.past, n).purchases && p.account == account ==>
                   Cost(cfg, p) <= MAX_INT64 + 1)
    ensures (forall p :: p in Store.At(w.past, n).purchases && p.account == account ==>
               MIN_INT64 < Cost(cfg, p) <= MAX_INT64 + 1)
            ==> AddsUp(cfg, Store.At(w.past, n), account, info)
  {
    ReachedInv(cfg, acts, w);
    hide Grouped, Inv, Reached, Cost;
    assert History.Valid(cfg, w.past, w.log) by { Bounds.InvIsValid(cfg, w); }
    StatementFromViews(cfg, w.past, w.log, n, account, seen.received, seen.sent, seen.inventory);
    AnswerTotal(Committed(w).accounts, seen.received, info.received);
    AnswerTotal(Committed(w).accounts, seen.sent, info.sent);
    AnswerWorth(cfg, seen.inventory, info.inventory);
  }
}
