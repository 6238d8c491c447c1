/** What each committed request changed in the tables, row by row and field by field. */
module Effects {
  import opened Schema
  import opened Program
  import opened Store
  import opened History
  import opened Invariant
  import opened Posting
  import opened Ledger
  import opened Serial

  // ----- transfers -----

  /** The two rows of a transfer, as answered. */
  ghost predicate TransferRows(req: Request, to: Id, sent: CoinTransfer, received: CoinTransfer)
    requires req.SendCoins?
  {
    && sent.kind == Sending && sent.owner == req.owner && sent.counterparty == to
    && sent.amount == req.amount && sent.key == req.key
    && received.kind == Receiving && received.owner == to && received.counterparty == req.owner
    && received.amount == req.amount && received.key == req.key
  }

  /** The two operations of a transfer, each with the row it stems from. */
  ghost predicate TransferOperations(req: Request, to: Id, sent: CoinTransfer, received: CoinTransfer,
                                     debit: Operation, credit: Operation)
    requires req.SendCoins?
  {
    && debit.kind == Decrease && debit.account == req.owner && debit.amount == 0 - (req.amount as int)
    && debit.source == FromTransfer && debit.sourceId == Some(sent.id)
    && credit.kind == Increase && credit.account == to && credit.amount == req.amount
    && credit.source == FromTransfer && credit.sourceId == Some(received.id)
  }

  /** The coins go from the owner, who has them, to the account of that name; nothing else changes. */
  ghost predicate MovesCoins(before: Tables, after: Tables, req: Request, reply: Reply)
    requires req.SendCoins?
  {
    && reply.Sent? && FindAccount(before.accounts, req.target).Some?
    && var to := FindAccount(before.accounts, req.target).value.id;
    && to != req.owner && 0 < req.amount <= BalanceOf(before, req.owner)
    && (forall id :: BalanceOf(after, id) == BalanceOf(before, id)
                     + if id == req.owner then 0 - (req.amount as int) else if id == to then req.amount else 0)
    && after.transfers == before.transfers + [reply.forOwner, reply.forTarget]
    && TransferRows(req, to, reply.forOwner, reply.forTarget)
    && (exists debit, credit ::
          && after.operations == before.operations + [debit, credit]
          && TransferOperations(req, to, reply.forOwner, reply.forTarget, debit, credit))
    && after.accounts == before.accounts && after.purchases == before.purchases
  }

  /** Every other balance than those written stays, and a written one grows by the operations written for it. */
  lemma BalancesMove(cfg: Config, past: seq<Tables>, log: seq<Entry>, i: nat, id: Id)
    requires History.Valid(cfg, past, log) && i < |log|
    ensures BalanceOf(past[i + 1], id) == BalanceOf(past[i], id) + SumOf(log[i].writes.operations, id)
  {
    hide Posted, SumOf;
    EntryPosted(cfg, past, log, i);
    if id in log[i].writes.balances {
      WrittenBalance(cfg, past, log, i, id);
    } else {
      NothingWritten(past[log[i].began], log[i].writes, id);
    }
  }

  lemma NothingWritten(snapshot: Tables, writes: Tables, id: Id)
    requires Reflected(snapshot, writes) && id !in writes.balances
    ensures SumOf(writes.operations, id) == 0
  {
    SumByZero(writes.operations, AmountOn(id));
  }

  lemma TwoAmounts(first: Operation, second: Operation, id: Id)
    ensures SumOf([first, second], id)
         == (if first.account == id then first.amount else 0) + (if second.account == id then second.amount else 0)
  {
    SumByTwo(first, second, AmountOn(id));
  }

  lemma OneAmount(operation: Operation, id: Id)
    ensures SumOf([operation], id) == if operation.account == id then operation.amount else 0
  {
    SumByTwo(operation, operation, AmountOn(id));
  }

  lemma TransferEffect(cfg: Config, past: seq<Tables>, log: seq<Entry>, i: nat)
    requires History.Valid(cfg, past, log) && i < |log| && log[i].req.SendCoins?
    ensures MovesCoins(past[i], past[i + 1], log[i].req, log[i].reply)
  {
    hide Justified, SumOf, Reflected, BalanceOf;
    var Entry(c, req, began, writes, reply) := log[i];
    EntryPosted(cfg, past, log, i);
    GrownBetween(cfg, past, log, began, i);
    FoundStaysFound(past[began], past[i], req.target);
    var to := FindAccount(past[began].accounts, req.target).value.id;
    var debit, credit := Debit(c, req), Credit(c, req, to);
    forall id
      ensures BalanceOf(past[i + 1], id) == BalanceOf(past[i], id)
              + if id == req.owner then 0 - (req.amount as int) else if id == to then req.amount else 0
    {
      BalancesMove(cfg, past, log, i, id);
      TwoAmounts(debit, credit, id);
    }
    CoveredAfter(cfg, past, log, i, req.owner);
    assert TransferOperations(req, to, reply.forOwner, reply.forTarget, debit, credit);
    assert past[i + 1].operations == past[i].operations + [debit, credit];
  }

  lemma CoveredAfter(cfg: Config, past: seq<Tables>, log: seq<Entry>, i: nat, id: Id)
    requires History.Valid(cfg, past, log) && i < |log|
    ensures BalanceOf(past[i + 1], id) >= 0
  {
    NoOverdraft(cfg, past, log, i + 1);
  }

  // ----- purchases -----

  /** The item of that name is bought, the product is taken off the buyer's balance, and nothing else changes. */
  ghost predicate ChargesBuyer(cfg: Config, before: Tables, after: Tables, req: Request, reply: Reply)
    requires req.Buy?
  {
    && reply.Bought? && FindItem(cfg.items, req.item).Some?
    && var item := FindItem(cfg.items, req.item).value;
    && var charged := Negate64(Wrap64(item.price * req.quantity));
    && 0 < req.quantity && BalanceOf(before, req.buyer) + charged >= 0
    && (forall id :: BalanceOf(after, id) == BalanceOf(before, id) + if id == req.buyer then charged else 0)
    && after.purchases == before.purchases + [reply.purchase]
    && reply.purchase.item == item.id && reply.purchase.account == req.buyer
    && reply.purchase.quantity == req.quantity && reply.purchase.key == req.key
    && (exists id :: after.operations == before.operations
          + [Operation(id, Decrease, req.buyer, charged, FromPurchase, Some(reply.purchase.id))])
    && after.accounts == before.accounts && after.transfers == before.transfers
  }

  lemma PurchaseEffect(cfg: Config, past: seq<Tables>, log: seq<Entry>, i: nat)
    requires History.Valid(cfg, past, log) && i < |log| && log[i].req.Buy?
    ensures ChargesBuyer(cfg, past[i], past[i + 1], log[i].req, log[i].reply)
  {
    hide Justified, SumOf, Reflected, BalanceOf;
    var Entry(c, req, began, writes, reply) := log[i];
    EntryPosted(cfg, past, log, i);
    var item := FindItem(cfg.items, req.item).value;
    var charged := Negate64(Wrap64(item.price * req.quantity));
    var payment := Payment(c, req, item);
    forall id ensures BalanceOf(past[i + 1], id) == BalanceOf(past[i], id) + if id == req.buyer then charged else 0 {
      BalancesMove(cfg, past, log, i, id);
      OneAmount(payment, id);
    }
    CoveredAfter(cfg, past, log, i, req.buyer);
    assert payment == Operation(Uuid(c, 1), Decrease, req.buyer, charged, FromPurchase, Some(reply.purchase.id));
    assert past[i + 1].operations == past[i].operations + [payment];
  }

  // ----- sign-ins -----

  /** An account of that name is found, and nothing changes, or one is created with that hash and the welcome amount. */
  ghost predicate SignsIn(cfg: Config, before: Tables, after: Tables, req: Request, reply: Reply)
    requires req.SignIn?
  {
    && reply.SignedIn? && reply.account.username == req.username
    && (if exists a :: a in before.accounts && a.username == req.username
        then reply.account in before.accounts && after == before
        else
          && Some(reply.account.passwordHash) == req.hash
          && after.accounts == before.accounts + [reply.account]
          && after.transfers == before.transfers && after.purchases == before.purchases
          && (forall id :: BalanceOf(after, id) == BalanceOf(before, id)
                           + if id == reply.account.id && cfg.newAccountAmount > 0 then cfg.newAccountAmount else 0)
          && (if cfg.newAccountAmount > 0
              then exists id :: after.operations == before.operations
                     + [Operation(id, Increase, reply.account.id, cfg.newAccountAmount, FromDeposit, None)]
              else after.operations == before.operations))
  }

  lemma SignInEffect(cfg: Config, past: seq<Tables>, log: seq<Entry>, i: nat)
    requires History.Valid(cfg, past, log) && i < |log| && log[i].req.SignIn?
    ensures SignsIn(cfg, past[i], past[i + 1], log[i].req, log[i].reply)
  {
    hide SumOf, Reflected, BalanceOf, Completes;
    var Entry(c, req, began, writes, reply) := log[i];
    EntryPosted(cfg, past, log, i);
    if FindAccount(past[began].accounts, req.username).Some? {
      GrownBetween(cfg, past, log, began, i);
      FoundStaysFound(past[began], past[i], req.username);
      MergeEmpty(past[i]);
    } else {
      assert Justified(cfg, past, log, i) && AccountOf(c, req) in writes.accounts;
      SignUpEffect(cfg, past, log, i);
    }
  }

  lemma SignUpEffect(cfg: Config, past: seq<Tables>, log: seq<Entry>, i: nat)
    requires History.Valid(cfg, past, log) && i < |log| && log[i].req.SignIn? && log[i].began <= i
    requires FindAccount(past[log[i].began].accounts, log[i].req.username).None?
    requires FindAccount(past[i].accounts, log[i].req.username).None?
    ensures SignsIn(cfg, past[i], past[i + 1], log[i].req, log[i].reply)
  {
    hide SumOf, Reflected, BalanceOf, Justified;
    var Entry(c, req, began, writes, reply) := log[i];
    EntryPosted(cfg, past, log, i);
    var welcome := Welcome(cfg, c);
    forall id
      ensures BalanceOf(past[i + 1], id) == BalanceOf(past[i], id)
              + if id == reply.account.id && cfg.newAccountAmount > 0 then cfg.newAccountAmount else 0
    {
      BalancesMove(cfg, past, log, i, id);
      OneAmount(welcome, id);
      NoAmount(id);
    }
    assert welcome == Operation(Uuid(c, 1), Increase, reply.account.id, cfg.newAccountAmount, FromDeposit, None);
    assert past[i + 1].operations == past[i].operations + writes.operations;
  }

  lemma NoAmount(id: Id)
    ensures SumOf([], id) == 0
  {
  }

  // ----- over whole runs -----

  /** Every commit of a run did to the tables what its request asked, and answered accordingly. */
  lemma CommitsDoWhatWasAsked(cfg: Config, acts: seq<Action>, w: World, i: nat)
    requires Reached(cfg, acts, w) && i < |w.log|
    ensures |w.past| == |w.log| + 1
    ensures match w.log[i].req
            case SignIn(_, _) => SignsIn(cfg, w.past[i], w.past[i + 1], w.log[i].req, w.log[i].reply)
            case SendCoins(_, _, _, _) => MovesCoins(w.past[i], w.past[i + 1], w.log[i].req, w.log[i].reply)
            case Buy(_, _, _, _) => ChargesBuyer(cfg, w.past[i], w.past[i + 1], w.log[i].req, w.log[i].reply)
  {
    ReachedInv(cfg, acts, w);
    match w.log[i].req
    case SignIn(_, _) => SignInEffect(cfg, w.past, w.log, i);
    case SendCoins(_, _, _, _) => TransferEffect(cfg, w.past, w.log, i);
    case Buy(_, _, _, _) => PurchaseEffect(cfg, w.past, w.log, i);
  }

  lemma {:induction false} AccountsAreFromSignIns(cfg: Config, past: seq<Tables>, log: seq<Entry>, n: nat, a: Account)
    requires History.Valid(cfg, past, log) && n <= |log| && a in past[n].accounts
    ensures exists k :: 0 <= k < n && log[k].req.SignIn?
                        && a.username == log[k].req.username && Some(a.passwordHash) == log[k].req.hash
  {
    hide Justified, BalanceOf;
    if n > 0 {
      match log[n - 1].req {
        case SignIn(_, _) => SignInEffect(cfg, past, log, n - 1);
        case SendCoins(_, _, _, _) => TransferEffect(cfg, past, log, n - 1);
        case Buy(_, _, _, _) => PurchaseEffect(cfg, past, log, n - 1);
      }
      if a in past[n - 1].accounts {
        AccountsAreFromSignIns(cfg, past, log, n - 1, a);
      }
    }
  }

  /** Every account carries the username of a committed sign-in and the hash that came with it. */
  lemma HashesAreThoseGiven(cfg: Config, acts: seq<Action>, w: World, n: nat, a: Account)
    requires Reached(cfg, acts, w) && n <= |w.log| && a in At(w.past, n).accounts
    ensures exists k :: 0 <= k < n && w.log[k].req.SignIn?
                        && a.username == w.log[k].req.username && Some(a.passwordHash) == w.log[k].req.hash
  {
    ReachedInv(cfg, acts, w);
    AccountsAreFromSignIns(cfg, w.past, w.log, n, a);
  }
}
