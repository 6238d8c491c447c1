/** What a request that ran to its end against one snapshot has written: the meaning of its statement list. */
module Posting {
  import opened Schema
  import opened Program
  import opened History

  /** The balance an upsert stores: the snapshot's sum plus the transaction's own operations. */
  ghost predicate BalancePosted(snapshot: Tables, writes: Tables, id: Id) {
    && id in writes.balances
    && writes.balances[id] == SumOf(snapshot.operations, id) + SumOf(writes.operations, id)
  }

  /**
   Every operation the transaction wrote is reflected in a balance row it wrote, and nothing else is written there.
   */
  ghost predicate Reflected(snapshot: Tables, writes: Tables) {
    && (forall id :: id in writes.balances ==> BalancePosted(snapshot, writes, id))
    && (forall id :: id in writes.balances <==> exists o :: o in writes.operations && o.account == id)
  }

  ghost predicate SignUpPosted(cfg: Config, c: nat, req: Request, snapshot: Tables, writes: Tables)
    requires req.SignIn? && req.hash.Some?
  {
    && FindAccount(snapshot.accounts, req.username).None?
    && writes.accounts == [AccountOf(c, req)]
    && writes.operations == (if cfg.newAccountAmount > 0 then [Welcome(cfg, c)] else [])
    && writes.transfers == [] && writes.purchases == []
    && Reflected(snapshot, writes)
  }

  ghost predicate SendPosted(c: nat, req: Request, target: Id, snapshot: Tables, writes: Tables)
    requires req.SendCoins?
  {
    && req.amount > 0 && target != req.owner
    && HasAccount(snapshot.accounts, req.owner)
    && writes.accounts == []
    && writes.operations == [Debit(c, req), Credit(c, req, target)]
    && writes.transfers == [SendingRow(c, req, target), ReceivingRow(c, req, target)]
    && writes.purchases == []
    && Reflected(snapshot, writes)
    && writes.balances[req.owner] >= 0
  }

  ghost predicate BuyPosted(c: nat, req: Request, item: ShopItem, snapshot: Tables, writes: Tables)
    requires req.Buy?
  {
    && req.quantity > 0
    && HasAccount(snapshot.accounts, req.buyer)
    && writes.accounts == []
    && writes.operations == [Payment(c, req, item)]
    && writes.transfers == []
    && writes.purchases == [PurchaseRow(c, req, item)]
    && Reflected(snapshot, writes)
    && writes.balances[req.buyer] >= 0
  }

  /** The whole effect of a completed request, by kind. */
  ghost predicate Posted(cfg: Config, c: nat, req: Request, snapshot: Tables, writes: Tables, reply: Reply) {
    && KeyFree(snapshot, req)
    && match req
       case SignIn(username, hash) =>
         var found := FindAccount(snapshot.accounts, username);
         if found.Some? then writes == EMPTY && reply == SignedIn(found.value)
         else hash.Some? && SignUpPosted(cfg, c, req, snapshot, writes) && reply == SignedIn(AccountOf(c, req))
       case SendCoins(target, owner, _, _) =>
         var found := FindAccount(snapshot.accounts, target);
         && found.Some?
         && SendPosted(c, req, found.value.id, snapshot, writes)
         && reply == Sent(SendingRow(c, req, found.value.id), ReceivingRow(c, req, found.value.id))
       case Buy(name, _, _, _) =>
         var found := FindItem(cfg.items, name);
         && found.Some?
         && BuyPosted(c, req, found.value, snapshot, writes)
         && reply == Bought(PurchaseRow(c, req, found.value))
  }

  lemma {:induction false} EarlierLinesSucceed(cfg: Config, snapshot: Tables, lines: seq<Line>, m: nat, n: nat)
    requires m <= n <= |lines| && RunLines(cfg, snapshot, lines, n).Some?
    ensures RunLines(cfg, snapshot, lines, m).Some?
  {
    if m < n { EarlierLinesSucceed(cfg, snapshot, lines, m, n - 1); }
  }

  lemma LineOnlyAdds(cfg: Config, snapshot: Tables, writes: Tables, line: Line, after: Tables)
    requires RunLine(cfg, snapshot, writes, line) == Some(after)
    ensures writes.operations <= after.operations && writes.balances.Keys <= after.balances.Keys
  {
  }

  /** What earlier lines wrote is still there. */
  lemma {:induction false} LinesOnlyAdd(cfg: Config, snapshot: Tables, lines: seq<Line>, m: nat, n: nat)
    requires m <= n <= |lines| && RunLines(cfg, snapshot, lines, n).Some?
    ensures RunLines(cfg, snapshot, lines, m).Some?
    ensures var earlier, later := RunLines(cfg, snapshot, lines, m).value, RunLines(cfg, snapshot, lines, n).value;
            earlier.operations <= later.operations && earlier.balances.Keys <= later.balances.Keys
  {
    hide RunLine;
    if m < n {
      LinesOnlyAdd(cfg, snapshot, lines, m, n - 1);
      LineOnlyAdds(cfg, snapshot, RunLines(cfg, snapshot, lines, n - 1).value, lines[n - 1],
                   RunLines(cfg, snapshot, lines, n).value);
    }
  }

  lemma NoLines(cfg: Config, snapshot: Tables, lines: seq<Line>)
    ensures RunLines(cfg, snapshot, lines, 0) == Some(EMPTY)
  {
  }

  /** SaveOperation as one unit: operation and balance row are written together, and a debit is covered. */
  lemma SaveEffect(cfg: Config, snapshot: Tables, lines: seq<Line>, n: nat, writes: Tables, operation: Operation)
    requires n + 3 <= |lines| && lines[n..n + 3] == SaveLines(operation)
    requires RunLines(cfg, snapshot, lines, n) == Some(writes)
    requires RunLines(cfg, snapshot, lines, n + 3).Some?
    ensures HasAccount(snapshot.accounts + writes.accounts, operation.account)
    ensures var sum := SumOf(snapshot.operations, operation.account)
                     + SumOf(writes.operations + [operation], operation.account);
            && FitsInt64(sum)
            && (operation.kind.Decrease? ==> sum >= 0)
            && RunLines(cfg, snapshot, lines, n + 3)
               == Some(writes.(operations := writes.operations + [operation],
                               balances := writes.balances[operation.account := sum]))
  {
    hide RunLines;
    var three := SaveLines(operation);
    assert lines[n] == three[0] && lines[n + 1] == three[1] && lines[n + 2] == three[2];
    EarlierLinesSucceed(cfg, snapshot, lines, n + 1, n + 3);
    EarlierLinesSucceed(cfg, snapshot, lines, n + 2, n + 3);
    var first := writes.(operations := writes.operations + [operation]);
    InsertOperationEffect(cfg, snapshot, lines, n, writes, operation);
    SumByAppend(snapshot.operations, first.operations, AmountOn(operation.account));
    UpsertEffect(cfg, snapshot, lines, n + 1, first, operation.account);
    var sum := SumOf(Merge(snapshot, first).operations, operation.account);
    ReadBackEffect(cfg, snapshot, lines, n + 2, first.(balances := first.balances[operation.account := sum]),
                   operation);
  }

  lemma InsertOperationEffect(cfg: Config, snapshot: Tables, lines: seq<Line>, n: nat, writes: Tables,
                              operation: Operation)
    requires n < |lines| && lines[n] == Line(InsertOperation(operation), false)
    requires RunLines(cfg, snapshot, lines, n) == Some(writes) && RunLines(cfg, snapshot, lines, n + 1).Some?
    ensures HasAccount(snapshot.accounts + writes.accounts, operation.account)
    ensures RunLines(cfg, snapshot, lines, n + 1) == Some(writes.(operations := writes.operations + [operation]))
  {
  }

  lemma UpsertEffect(cfg: Config, snapshot: Tables, lines: seq<Line>, n: nat, writes: Tables, id: Id)
    requires n < |lines| && lines[n] == Line(UpsertBalance(id), false)
    requires RunLines(cfg, snapshot, lines, n) == Some(writes) && RunLines(cfg, snapshot, lines, n + 1).Some?
    ensures var sum := SumOf(Merge(snapshot, writes).operations, id);
            FitsInt64(sum)
            && RunLines(cfg, snapshot, lines, n + 1) == Some(writes.(balances := writes.balances[id := sum]))
  {
    hide SumOf, HasAccount;
  }

  lemma ReadBackEffect(cfg: Config, snapshot: Tables, lines: seq<Line>, n: nat, writes: Tables, operation: Operation)
    requires n < |lines| && lines[n] == Line(SelectBalance(operation.account), operation.kind.Decrease?)
    requires RunLines(cfg, snapshot, lines, n) == Some(writes) && RunLines(cfg, snapshot, lines, n + 1).Some?
    requires operation.account in writes.balances
    ensures RunLines(cfg, snapshot, lines, n + 1) == Some(writes)
    ensures operation.kind.Decrease? ==> writes.balances[operation.account] >= 0
  {
  }

  /** The tables written by one operation with its balance row. */
  function WithOperation(writes: Tables, operation: Operation, balance: int64): Tables {
    writes.(operations := writes.operations + [operation], balances := writes.balances[operation.account := balance])
  }

  lemma InsertTransferEffect(cfg: Config, snapshot: Tables, lines: seq<Line>, n: nat, writes: Tables, row: CoinTransfer)
    requires n < |lines| && lines[n] == Line(InsertTransfer(row), false)
    requires RunLines(cfg, snapshot, lines, n) == Some(writes)
    requires RunLines(cfg, snapshot, lines, n + 1).Some?
    ensures RunLines(cfg, snapshot, lines, n + 1) == Some(writes.(transfers := writes.transfers + [row]))
  {
  }

  lemma InsertAccountEffect(cfg: Config, snapshot: Tables, lines: seq<Line>, account: Account)
    requires lines != [] && lines[0] == Line(InsertAccount(account), false)
    requires RunLines(cfg, snapshot, lines, 1).Some?
    ensures RunLines(cfg, snapshot, lines, 1) == Some(EMPTY.(accounts := [account]))
  {
    assert RunLines(cfg, snapshot, lines, 0) == Some(EMPTY);
    assert EMPTY.accounts + [account] == [account];
  }

  lemma InsertPurchaseEffect(cfg: Config, snapshot: Tables, lines: seq<Line>, n: nat, writes: Tables, row: ShopPurchase)
    requires n < |lines| && lines[n] == Line(InsertPurchase(row), false)
    requires RunLines(cfg, snapshot, lines, n) == Some(writes)
    requires RunLines(cfg, snapshot, lines, n + 1).Some?
    ensures row.quantity > 0
    ensures RunLines(cfg, snapshot, lines, n + 1) == Some(writes.(purchases := writes.purchases + [row]))
  {
  }

  lemma OneOperationReflected(snapshot: Tables, writes: Tables, operation: Operation, balance: int64)
    requires writes.operations == [] && writes.balances == map[]
    requires balance == SumOf(snapshot.operations, operation.account) + SumOf([operation], operation.account)
    ensures Reflected(snapshot, WithOperation(writes, operation, balance))
  {
    var after := WithOperation(writes, operation, balance);
    assert after.operations == [operation];
    assert operation in after.operations;
  }

  lemma TwoOperationsReflected(snapshot: Tables, first: Operation, second: Operation, x: int64, y: int64)
    requires first.account != second.account
    requires x == SumOf(snapshot.operations, first.account) + SumOf([first], first.account)
    requires y == SumOf(snapshot.operations, second.account) + SumOf([first, second], second.account)
    ensures Reflected(snapshot, WithOperation(WithOperation(EMPTY, first, x), second, y))
  {
    var after := WithOperation(WithOperation(EMPTY, first, x), second, y);
    assert after.operations == [first, second];
    assert first in after.operations && second in after.operations;
    SumByTwo(first, second, AmountOn(first.account));
    SumByTwo(first, second, AmountOn(second.account));
  }

  lemma ReflectedIgnoresDocuments(snapshot: Tables, writes: Tables, writes': Tables)
    requires Reflected(snapshot, writes)
    requires writes'.operations == writes.operations && writes'.balances == writes.balances
    ensures Reflected(snapshot, writes')
  {
    assert forall id :: id in writes.balances ==> BalancePosted(snapshot, writes, id);
  }

  lemma SendEffect(cfg: Config, c: nat, req: Request, target: Id, snapshot: Tables, writes: Tables)
    requires req.SendCoins? && req.amount > 0 && target != req.owner
    requires RunLines(cfg, snapshot, SendLines(c, req, target), 8) == Some(writes)
    ensures SendPosted(c, req, target, snapshot, writes)
  {
    hide RunLines;
    NoLines(cfg, snapshot, SendLines(c, req, target));
    var lines := SendLines(c, req, target);
    var debit, credit := Debit(c, req), Credit(c, req, target);
    EarlierLinesSucceed(cfg, snapshot, lines, 3, 8);
    EarlierLinesSucceed(cfg, snapshot, lines, 6, 8);
    EarlierLinesSucceed(cfg, snapshot, lines, 7, 8);
    assert lines[0..3] == SaveLines(debit) && lines[3..6] == SaveLines(credit);
    SaveEffect(cfg, snapshot, lines, 0, EMPTY, debit);
    var x := SumOf(snapshot.operations, req.owner) + SumOf([] + [debit], req.owner);
    var one := WithOperation(EMPTY, debit, x);
    SaveEffect(cfg, snapshot, lines, 3, one, credit);
    var y := SumOf(snapshot.operations, target) + SumOf(one.operations + [credit], target);
    var two := WithOperation(one, credit, y);
    InsertTransferEffect(cfg, snapshot, lines, 6, two, SendingRow(c, req, target));
    var three := two.(transfers := two.transfers + [SendingRow(c, req, target)]);
    InsertTransferEffect(cfg, snapshot, lines, 7, three, ReceivingRow(c, req, target));
    SendFromSums(c, req, target, snapshot, writes, x, y);
  }

  lemma SendFromSums(c: nat, req: Request, target: Id, snapshot: Tables, writes: Tables, x: int64, y: int64)
    requires req.SendCoins? && req.amount > 0 && target != req.owner
    requires HasAccount(snapshot.accounts + [], req.owner)
    requires x == SumOf(snapshot.operations, req.owner) + SumOf([] + [Debit(c, req)], req.owner) && x >= 0
    requires y == SumOf(snapshot.operations, target) + SumOf([] + [Debit(c, req)] + [Credit(c, req, target)], target)
    requires var two := WithOperation(WithOperation(EMPTY, Debit(c, req), x), Credit(c, req, target), y);
             writes == two.(transfers := [] + [SendingRow(c, req, target)] + [ReceivingRow(c, req, target)])
    ensures SendPosted(c, req, target, snapshot, writes)
  {
    var debit, credit := Debit(c, req), Credit(c, req, target);
    assert [] + [debit] == [debit] && [debit] + [credit] == [debit, credit];
    assert snapshot.accounts + [] == snapshot.accounts;
    TwoOperationsReflected(snapshot, debit, credit, x, y);
    var two := WithOperation(WithOperation(EMPTY, debit, x), credit, y);
    ReflectedIgnoresDocuments(snapshot, two, writes);
  }

  lemma BuyEffect(cfg: Config, c: nat, req: Request, item: ShopItem, snapshot: Tables, writes: Tables)
    requires req.Buy?
    requires RunLines(cfg, snapshot, BuyLines(c, req, item), 4) == Some(writes)
    ensures BuyPosted(c, req, item, snapshot, writes)
  {
    hide RunLines;
    NoLines(cfg, snapshot, BuyLines(c, req, item));
    var lines := BuyLines(c, req, item);
    var payment := Payment(c, req, item);
    EarlierLinesSucceed(cfg, snapshot, lines, 3, 4);
    assert lines[0..3] == SaveLines(payment);
    SaveEffect(cfg, snapshot, lines, 0, EMPTY, payment);
    assert [] + [payment] == [payment];
    var x := SumOf(snapshot.operations, req.buyer) + SumOf([payment], req.buyer);
    var one := WithOperation(EMPTY, payment, x);
    InsertPurchaseEffect(cfg, snapshot, lines, 3, one, PurchaseRow(c, req, item));
    assert snapshot.accounts + [] == snapshot.accounts;
    OneOperationReflected(snapshot, EMPTY, payment, x);
    ReflectedIgnoresDocuments(snapshot, one, writes);
  }

  lemma SignUpEffect(cfg: Config, c: nat, req: Request, snapshot: Tables, writes: Tables)
    requires req.SignIn? && req.hash.Some? && FindAccount(snapshot.accounts, req.username).None?
    requires var lines := SignUpLines(cfg, c, req); RunLines(cfg, snapshot, lines, |lines|) == Some(writes)
    ensures SignUpPosted(cfg, c, req, snapshot, writes)
  {
    hide RunLines;
    var lines := SignUpLines(cfg, c, req);
    EarlierLinesSucceed(cfg, snapshot, lines, 1, |lines|);
    assert lines[0] == Line(InsertAccount(AccountOf(c, req)), false);
    var created := EMPTY.(accounts := [AccountOf(c, req)]);
    InsertAccountEffect(cfg, snapshot, lines, AccountOf(c, req));
    if cfg.newAccountAmount > 0 {
      var welcome := Welcome(cfg, c);
      assert lines[1..4] == SaveLines(welcome);
      SaveEffect(cfg, snapshot, lines, 1, created, welcome);
      assert [] + [welcome] == [welcome];
      OneOperationReflected(snapshot, created, welcome,
                            SumOf(snapshot.operations, welcome.account) + SumOf([welcome], welcome.account));
    }
  }

  /** Running the statement list to its end against a snapshot has exactly the effect of its kind. */
  lemma CompletesMeansPosted(cfg: Config, c: nat, req: Request, snapshot: Tables, writes: Tables, reply: Reply)
    requires Completes(cfg, c, req, snapshot, writes, reply)
    ensures Posted(cfg, c, req, snapshot, writes, reply)
  {
    match req
    case SignIn(username, _) =>
      if FindAccount(snapshot.accounts, username).None? { SignUpEffect(cfg, c, req, snapshot, writes); }
    case SendCoins(target, _, _, _) =>
      SendEffect(cfg, c, req, FindAccount(snapshot.accounts, target).value.id, snapshot, writes);
    case Buy(name, _, _, _) =>
      BuyEffect(cfg, c, req, FindItem(cfg.items, name).value, snapshot, writes);
  }

  lemma PostedReflects(cfg: Config, c: nat, req: Request, snapshot: Tables, writes: Tables, reply: Reply)
    requires Posted(cfg, c, req, snapshot, writes, reply)
    ensures Reflected(snapshot, writes)
  {
  }

  /** A completed request answers what it was asked. */
  lemma CompletedAnswers(cfg: Config, c: nat, req: Request, snapshot: Tables, writes: Tables, reply: Reply)
    requires Completes(cfg, c, req, snapshot, writes, reply)
    ensures Answer(cfg, snapshot, req, reply)
  {
    hide RunLines, Reflected;
    CompletesMeansPosted(cfg, c, req, snapshot, writes, reply);
  }
}
