/** GROUP BY, and what the grouped coin history and inventory say about the balance. */
module Grouping {
  import opened Schema
  import opened Store
  import opened History
  import opened Documents

  /** A row (key, value) before grouping, and a group (key, sum) after it. */
  datatype Group = Group(id: Id, total: int)

  function Total(): Group -> int {
    (g: Group) => g.total
  }

  function TotalFor(id: Id): Group -> int {
    (g: Group) => if g.id == id then g.total else 0
  }

  ghost predicate HasGroup(groups: seq<Group>, id: Id) {
    exists g :: g in groups && g.id == id
  }

  ghost predicate DistinctIds(groups: seq<Group>) {
    forall i, j :: 0 <= i < j < |groups| ==> groups[i].id != groups[j].id
  }

  /** `groups`, in whatever order, is SELECT id, SUM(total) ... GROUP BY id over `rows`. */
  ghost predicate Grouped(rows: seq<Group>, groups: seq<Group>) {
    && DistinctIds(groups)
    && (forall g :: g in groups ==> HasGroup(rows, g.id) && g.total == SumBy(rows, TotalFor(g.id)))
    && (forall r :: r in rows ==> HasGroup(groups, r.id))
  }

  // ----- computing a grouping -----

  function AddRow(groups: seq<Group>, row: Group): seq<Group> {
    if groups == [] then [row]
    else if groups[0].id == row.id then [Group(row.id, groups[0].total + row.total)] + groups[1..]
    else [groups[0]] + AddRow(groups[1..], row)
  }

  function GroupRows(rows: seq<Group>): seq<Group> {
    if rows == [] then [] else AddRow(GroupRows(rows[..|rows| - 1]), rows[|rows| - 1])
  }

  lemma HasGroupCons(g: Group, rest: seq<Group>, id: Id)
    ensures HasGroup([g] + rest, id) <==> g.id == id || HasGroup(rest, id)
  {
    assert forall x :: x in [g] + rest <==> x == g || x in rest;
  }

  /** Adding a row changes the total of its own group only, and opens that group if it is new. */
  lemma {:induction false} AddRowEffect(groups: seq<Group>, row: Group)
    requires DistinctIds(groups)
    ensures DistinctIds(AddRow(groups, row))
    ensures forall id :: HasGroup(AddRow(groups, row), id) <==> HasGroup(groups, id) || id == row.id
    ensures forall g :: g in AddRow(groups, row) ==>
              if g.id == row.id then g.total == row.total + SumBy(groups, TotalFor(row.id)) else g in groups
  {
    var after := AddRow(groups, row);
    if groups == [] {
      assert row in after;
    } else {
      var first, rest := groups[0], groups[1..];
      assert groups == [first] + rest;
      forall id ensures HasGroup(groups, id) <==> first.id == id || HasGroup(rest, id) {
        HasGroupCons(first, rest, id);
      }
      if first.id == row.id {
        var grown := Group(row.id, first.total + row.total);
        forall id ensures HasGroup(after, id) <==> row.id == id || HasGroup(rest, id) { HasGroupCons(grown, rest, id); }
        AbsentFromRest(groups);
        SumByZero(rest, TotalFor(row.id));
      } else {
        var more := AddRow(rest, row);
        AddRowEffect(rest, row);
        forall id ensures HasGroup(after, id) <==> first.id == id || HasGroup(more, id) {
          HasGroupCons(first, more, id);
        }
        AbsentFromRest(groups);
        assert !HasGroup(more, first.id);
        assert forall j :: 0 <= j < |more| ==> more[j] in more;
      }
    }
  }

  /** No later group has the key of the first. */
  lemma AbsentFromRest(groups: seq<Group>)
    requires groups != [] && DistinctIds(groups)
    ensures forall g :: g in groups[1..] ==> g.id != groups[0].id
  {
    forall g | g in groups[1..] ensures g.id != groups[0].id {
      var k :| 0 <= k < |groups[1..]| && groups[1..][k] == g;
      assert groups[0].id != groups[k + 1].id;
    }
  }

  lemma {:induction false} GroupRowsIsGrouped(rows: seq<Group>)
    ensures Grouped(rows, GroupRows(rows))
  {
    if rows != [] {
      var init, last := rows[..|rows| - 1], rows[|rows| - 1];
      var before, after := GroupRows(init), GroupRows(rows);
      GroupRowsIsGrouped(init);
      AddRowEffect(before, last);
      assert rows == init + [last];
      assert forall r :: r in rows <==> r in init || r == last;
      forall g | g in after ensures HasGroup(rows, g.id) && g.total == SumBy(rows, TotalFor(g.id)) {
        SumByAppend(init, [last], TotalFor(g.id));
        assert SumBy([last], TotalFor(g.id)) == TotalFor(g.id)(last) + SumBy([], TotalFor(g.id));
        if g.id == last.id {
          OneGroupTotal(init, before, last.id);
          assert last in rows;
        } else {
          assert g in before && HasGroup(init, g.id);
        }
      }
      forall r | r in rows ensures HasGroup(after, r.id) { assert r == last || HasGroup(before, r.id); }
    }
  }

  /** The total a grouping holds for one key. */
  lemma OneGroupTotal(rows: seq<Group>, groups: seq<Group>, id: Id)
    requires Grouped(rows, groups)
    ensures SumBy(groups, TotalFor(id)) == SumBy(rows, TotalFor(id))
  {
    if HasGroup(groups, id) {
      var g :| g in groups && g.id == id;
      OnlyOne(groups, g);
    } else {
      SumByZero(groups, TotalFor(id));
      SumByZero(rows, TotalFor(id));
    }
  }

  lemma {:induction false} OnlyOne(groups: seq<Group>, g: Group)
    requires DistinctIds(groups) && g in groups
    ensures SumBy(groups, TotalFor(g.id)) == g.total
  {
    if groups[0] == g {
      AbsentFromRest(groups);
      SumByZero(groups[1..], TotalFor(g.id));
    } else {
      var k :| 0 <= k < |groups| && groups[k] == g;
      assert groups[0].id != groups[k].id;
      OnlyOne(groups[1..], g);
    }
  }

  // ----- grouping loses nothing -----

  /** A value per unit of each key. */
  function Weighted(weight: Id -> int): Group -> int {
    (g: Group) => weight(g.id) * g.total
  }

  function WeightedPart(weight: Id -> int, rows: seq<Group>): Group -> int {
    (g: Group) => weight(g.id) * SumBy(rows, TotalFor(g.id))
  }

  function WeightedShare(weight: Id -> int, row: Group): Group -> int {
    (g: Group) => if g.id == row.id then weight(row.id) * row.total else 0
  }

  lemma {:induction false} OneGroupShares(groups: seq<Group>, weight: Id -> int, row: Group)
    requires DistinctIds(groups) && HasGroup(groups, row.id)
    ensures SumBy(groups, WeightedShare(weight, row)) == weight(row.id) * row.total
  {
    var rest := groups[1..];
    if groups[0].id == row.id {
      AbsentFromRest(groups);
      SumByZero(rest, WeightedShare(weight, row));
    } else {
      var g :| g in groups && g.id == row.id;
      assert g in rest;
      OneGroupShares(rest, weight, row);
    }
  }

  lemma {:induction false} EveryRowCountedOnce(rows: seq<Group>, groups: seq<Group>, weight: Id -> int)
    requires DistinctIds(groups) && forall r :: r in rows ==> HasGroup(groups, r.id)
    ensures SumBy(groups, WeightedPart(weight, rows)) == SumBy(rows, Weighted(weight))
  {
    if rows == [] {
      forall g | g in groups ensures WeightedPart(weight, rows)(g) == 0 { assert SumBy(rows, TotalFor(g.id)) == 0; }
      SumByZero(groups, WeightedPart(weight, rows));
    } else {
      var row, rest := rows[0], rows[1..];
      EveryRowCountedOnce(rest, groups, weight);
      OneGroupShares(groups, weight, row);
      forall g | g in groups
        ensures WeightedPart(weight, rows)(g) == WeightedShare(weight, row)(g) + WeightedPart(weight, rest)(g)
      {
        Distribute(weight(g.id), TotalFor(g.id)(row), SumBy(rest, TotalFor(g.id)));
      }
      SumByPlus(groups, WeightedShare(weight, row), WeightedPart(weight, rest), WeightedPart(weight, rows));
    }
  }

  lemma Distribute(w: int, x: int, y: int)
    ensures w * (x + y) == w * x + w * y
  {
  }

  /** Whatever each unit of a key is worth, the groups together are worth what the rows are. */
  lemma GroupingKeepsWorth(rows: seq<Group>, groups: seq<Group>, weight: Id -> int)
    requires Grouped(rows, groups)
    ensures SumBy(groups, Weighted(weight)) == SumBy(rows, Weighted(weight))
  {
    SumBySame(groups, Weighted(weight), WeightedPart(weight, rows));
    EveryRowCountedOnce(rows, groups, weight);
  }

  function One(): Id -> int {
    (id: Id) => 1
  }

  lemma GroupingKeepsTotal(rows: seq<Group>, groups: seq<Group>)
    requires Grouped(rows, groups)
    ensures SumBy(groups, Total()) == SumBy(rows, Total())
  {
    GroupingKeepsWorth(rows, groups, One());
    SumBySame(groups, Weighted(One()), Total());
    SumBySame(rows, Weighted(One()), Total());
  }

  // ----- the rows of the two queries -----

  /** WHERE owner_account_id = owner AND transfer_type = kind, as (counterparty, amount). */
  function HistoryRows(transfers: seq<CoinTransfer>, owner: Id, kind: CoinTransferType): seq<Group> {
    if transfers == [] then []
    else
      (if transfers[0].owner == owner && transfers[0].kind == kind
       then [Group(transfers[0].counterparty, transfers[0].amount)] else [])
      + HistoryRows(transfers[1..], owner, kind)
  }

  /** WHERE account_id = account, as (item, quantity). */
  function InventoryRows(purchases: seq<ShopPurchase>, account: Id): seq<Group> {
    if purchases == [] then []
    else
      (if purchases[0].account == account then [Group(purchases[0].item, purchases[0].quantity)] else [])
      + InventoryRows(purchases[1..], account)
  }

  lemma {:induction false} HistoryRowSums(transfers: seq<CoinTransfer>, owner: Id, other: Id)
    ensures SumBy(HistoryRows(transfers, owner, Sending), Total()) == SumBy(transfers, SentOn(owner))
    ensures SumBy(HistoryRows(transfers, owner, Receiving), Total()) == SumBy(transfers, ReceivedOn(owner))
    ensures SumBy(HistoryRows(transfers, owner, Sending), TotalFor(other)) == SumBy(transfers, SentTo(owner, other))
    ensures SumBy(HistoryRows(transfers, owner, Receiving), TotalFor(other))
         == SumBy(transfers, ReceivedFrom(owner, other))
  {
    if transfers != [] {
      HistoryRowSums(transfers[1..], owner, other);
      HistoryRowStep(transfers, owner, Sending, other);
      HistoryRowStep(transfers, owner, Receiving, other);
    }
  }

  lemma HistoryRowStep(transfers: seq<CoinTransfer>, owner: Id, kind: CoinTransferType, other: Id)
    requires transfers != []
    ensures var t, rest := transfers[0], HistoryRows(transfers[1..], owner, kind);
            && SumBy(HistoryRows(transfers, owner, kind), Total())
               == (if t.owner == owner && t.kind == kind then t.amount else 0) + SumBy(rest, Total())
            && SumBy(HistoryRows(transfers, owner, kind), TotalFor(other))
               == (if t.owner == owner && t.kind == kind && t.counterparty == other then t.amount else 0)
                  + SumBy(rest, TotalFor(other))
  {
    var t, rest := transfers[0], HistoryRows(transfers[1..], owner, kind);
    var row := Group(t.counterparty, t.amount);
    var head := if t.owner == owner && t.kind == kind then [row] else [];
    assert HistoryRows(transfers, owner, kind) == head + rest;
    SumByAppend(head, rest, Total());
    SumByAppend(head, rest, TotalFor(other));
    SumByTwo(row, row, Total());
    SumByTwo(row, row, TotalFor(other));
  }

  lemma {:induction false} HistoryRowsAre(transfers: seq<CoinTransfer>, owner: Id, kind: CoinTransferType, id: Id)
    ensures HasGroup(HistoryRows(transfers, owner, kind), id)
       <==> exists t :: t in transfers && t.owner == owner && t.kind == kind && t.counterparty == id
  {
    if transfers != [] {
      var t, rest := transfers[0], HistoryRows(transfers[1..], owner, kind);
      HistoryRowsAre(transfers[1..], owner, kind, id);
      var all := HistoryRows(transfers, owner, kind);
      assert forall g :: g in all <==>
        g in rest || (t.owner == owner && t.kind == kind && g == Group(t.counterparty, t.amount));
      assert forall x :: x in transfers <==> x == t || x in transfers[1..];
      if t.owner == owner && t.kind == kind && t.counterparty == id {
        assert Group(t.counterparty, t.amount) in all;
      }
      if HasGroup(rest, id) {
        var g :| g in rest && g.id == id;
        assert g in all;
      }
    }
  }

  function Price(cfg: Config): Id -> int {
    (id: Id) => PriceOf(cfg.items, id)
  }

  lemma {:induction false} InventoryRowSums(cfg: Config, purchases: seq<ShopPurchase>, account: Id)
    ensures SumBy(InventoryRows(purchases, account), Weighted(Price(cfg))) == SumBy(purchases, CostOn(cfg, account))
  {
    if purchases != [] {
      InventoryRowSums(cfg, purchases[1..], account);
      var p, rest := purchases[0], InventoryRows(purchases[1..], account);
      var row := Group(p.item, p.quantity);
      var head := if p.account == account then [row] else [];
      assert InventoryRows(purchases, account) == head + rest;
      SumByAppend(head, rest, Weighted(Price(cfg)));
      SumByTwo(row, row, Weighted(Price(cfg)));
    }
  }

  // ----- the views at one committed state -----

  /** The balance is what the grouped history and inventory say it is. */
  ghost predicate ViewsAddUp(cfg: Config, tables: Tables, account: Id,
                             received: seq<Group>, sent: seq<Group>, inventory: seq<Group>) {
    BalanceOf(tables, account)
    == SumBy(tables.operations, DepositOn(account))
       + SumBy(received, Total()) - SumBy(sent, Total()) - SumBy(inventory, Weighted(Price(cfg)))
  }

  /**
   The statement equation: the balance is the deposits plus the grouped coins received, minus the grouped coins
   sent, minus price times quantity over the grouped inventory, whatever order the groups come in. With non-negative
   prices this holds if and only if no purchase of this account has a product beyond 2^63.
   */
  lemma StatementFromViews(cfg: Config, past: seq<Tables>, log: seq<Entry>, n: nat, account: Id,
                           received: seq<Group>, sent: seq<Group>, inventory: seq<Group>)
    requires CatalogueOk(cfg) && History.Valid(cfg, past, log) && n <= |log|
    requires Grouped(HistoryRows(past[n].transfers, account, Receiving), received)
    requires Grouped(HistoryRows(past[n].transfers, account, Sending), sent)
    requires Grouped(InventoryRows(past[n].purchases, account), inventory)
    ensures ViewsAddUp(cfg, past[n], account, received, sent, inventory)
       <==> SumBy(past[n].purchases, ChargeOn(cfg, account)) == SumBy(past[n].purchases, CostOn(cfg, account))
    ensures PricesOk(cfg) ==>
              (ViewsAddUp(cfg, past[n], account, received, sent, inventory) <==>
                 forall p :: p in past[n].purchases && p.account == account ==> Cost(cfg, p) <= MAX_INT64 + 1)
    ensures (forall p :: p in past[n].purchases && p.account == account ==> MIN_INT64 < Cost(cfg, p) <= MAX_INT64 + 1)
              ==> ViewsAddUp(cfg, past[n], account, received, sent, inventory)
  {
    hide Justified, Grouped, Cost, Charge;
    var tables := past[n];
    BalanceIsStatement(cfg, past, log, n, account);
    GroupingKeepsTotal(HistoryRows(tables.transfers, account, Receiving), received);
    GroupingKeepsTotal(HistoryRows(tables.transfers, account, Sending), sent);
    GroupingKeepsWorth(InventoryRows(tables.purchases, account), inventory, Price(cfg));
    HistoryRowSums(tables.transfers, account, account);
    InventoryRowSums(cfg, tables.purchases, account);
    if PricesOk(cfg) {
      ChargesOnAreCostsIff(cfg, past, log, n, account);
    }
    if forall p :: p in tables.purchases && p.account == account ==> MIN_INT64 < Cost(cfg, p) <= MAX_INT64 + 1 {
      forall p | p in tables.purchases ensures ChargeOn(cfg, account)(p) == CostOn(cfg, account)(p) {
        ChargeIsCostIff(cfg, p);
      }
      SumBySame(tables.purchases, ChargeOn(cfg, account), CostOn(cfg, account));
    }
  }

  /** What A's history says it sent to B is what B's history says it received from A: group for group. */
  lemma MirroredViews(cfg: Config, past: seq<Tables>, log: seq<Entry>, n: nat, a: Id, b: Id,
                      sentByA: seq<Group>, receivedByB: seq<Group>)
    requires History.Valid(cfg, past, log) && n <= |log|
    requires Grouped(HistoryRows(past[n].transfers, a, Sending), sentByA)
    requires Grouped(HistoryRows(past[n].transfers, b, Receiving), receivedByB)
    ensures HasGroup(sentByA, b) <==> HasGroup(receivedByB, a)
    ensures forall x, y :: x in sentByA && x.id == b && y in receivedByB && y.id == a ==> x.total == y.total
  {
    hide Justified;
    var transfers := past[n].transfers;
    TransfersMirror(cfg, past, log, n);
    MirrorSums(transfers, a, b);
    HistoryRowSums(transfers, a, b);
    HistoryRowSums(transfers, b, a);
    HistoryRowsAre(transfers, a, Sending, b);
    HistoryRowsAre(transfers, b, Receiving, a);
    MirrorRowExists(transfers, a, b);
    GroupsAreRows(HistoryRows(transfers, a, Sending), sentByA, b);
    GroupsAreRows(HistoryRows(transfers, b, Receiving), receivedByB, a);
  }

  lemma GroupsAreRows(rows: seq<Group>, groups: seq<Group>, id: Id)
    requires Grouped(rows, groups)
    ensures HasGroup(groups, id) <==> HasGroup(rows, id)
  {
  }

  lemma MirrorRowExists(transfers: seq<CoinTransfer>, a: Id, b: Id)
    requires MirrorPairs(transfers)
    ensures (exists t :: t in transfers && t.owner == a && t.kind == Sending && t.counterparty == b)
       <==> (exists t :: t in transfers && t.owner == b && t.kind == Receiving && t.counterparty == a)
  {
    if t :| t in transfers && t.owner == a && t.kind == Sending && t.counterparty == b {
      var i :| 0 <= i < |transfers| && transfers[i] == t;
      assert Mirrored(transfers[2 * (i / 2)], transfers[2 * (i / 2) + 1]);
      assert transfers[2 * (i / 2) + 1] in transfers;
    }
    if t :| t in transfers && t.owner == b && t.kind == Receiving && t.counterparty == a {
      var i :| 0 <= i < |transfers| && transfers[i] == t;
      assert Mirrored(transfers[2 * (i / 2)], transfers[2 * (i / 2) + 1]);
      assert transfers[2 * (i / 2)] in transfers;
    }
  }
}
