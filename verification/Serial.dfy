/** A ledger that serves one request at a time, and the proof that the concurrent store is equivalent to it. */
module Serial {
  import opened Schema
  import opened Program
  import opened Store
  import opened History
  import opened Posting
  import opened Ledger
  import opened Invariant

  datatype Served = Served(tables: Tables, reply: Reply)

  /** One operation on running balances: no log is summed. */
  function Post(tables: Tables, operation: Operation): Option<Tables> {
    var balance := BalanceOf(tables, operation.account) + operation.amount;
    if !FitsInt64(balance) || (operation.kind.Decrease? && balance < 0) then None
    else Some(tables.(operations := tables.operations + [operation],
                      balances := tables.balances[operation.account := balance]))
  }

  /** One request served alone; None when it is refused. */
  ghost function Serve(cfg: Config, tables: Tables, c: nat, req: Request): Option<Served> {
    match req
    case SignIn(username, hash) => ServeSignIn(cfg, tables, c, req)
    case SendCoins(_, _, _, _) => ServeSend(tables, c, req)
    case Buy(_, _, _, _) => ServeBuy(cfg, tables, c, req)
  }

  function ServeSignIn(cfg: Config, tables: Tables, c: nat, req: Request): Option<Served>
    requires req.SignIn?
  {
    var found := FindAccount(tables.accounts, req.username);
    if found.Some? then Some(Served(tables, SignedIn(found.value)))
    else if req.hash.None? then None
    else
      var joined := tables.(accounts := tables.accounts + [AccountOf(c, req)]);
      if cfg.newAccountAmount <= 0 then Some(Served(joined, SignedIn(AccountOf(c, req))))
      else
        match Post(joined, Welcome(cfg, c))
        case None => None
        case Some(credited) => Some(Served(credited, SignedIn(AccountOf(c, req))))
  }

  ghost function ServeSend(tables: Tables, c: nat, req: Request): Option<Served>
    requires req.SendCoins?
  {
    var found := FindAccount(tables.accounts, req.target);
    if req.amount <= 0 || !KeyFree(tables, req) || found.None? || found.value.id == req.owner
       || !HasAccount(tables.accounts, req.owner) then None
    else
      var target := found.value.id;
      match Post(tables, Debit(c, req))
      case None => None
      case Some(debited) =>
        match Post(debited, Credit(c, req, target))
        case None => None
        case Some(moved) =>
          var sent, received := SendingRow(c, req, target), ReceivingRow(c, req, target);
          Some(Served(moved.(transfers := moved.transfers + [sent, received]), Sent(sent, received)))
  }

  ghost function ServeBuy(cfg: Config, tables: Tables, c: nat, req: Request): Option<Served>
    requires req.Buy?
  {
    var found := FindItem(cfg.items, req.item);
    if req.quantity <= 0 || !KeyFree(tables, req) || found.None? || !HasAccount(tables.accounts, req.buyer) then None
    else
      match Post(tables, Payment(c, req, found.value))
      case None => None
      case Some(paid) =>
        var row := PurchaseRow(c, req, found.value);
        Some(Served(paid.(purchases := paid.purchases + [row]), Bought(row)))
  }

  /** The first n committed requests, served one at a time in commit order; every reply has to be the one given. */
  ghost function Replay(cfg: Config, log: seq<Entry>, n: nat): Option<Tables>
    requires n <= |log|
  {
    if n == 0 then Some(EMPTY)
    else
      match Replay(cfg, log, n - 1)
      case None => None
      case Some(tables) =>
        var served := Serve(cfg, tables, log[n - 1].client, log[n - 1].req);
        if served.Some? && served.value.reply == log[n - 1].reply then Some(served.value.tables) else None
  }

  // ----- what changed between the snapshot and the commit does not matter -----

  /** At commit time the balance row a transaction wrote is the running balance plus its own operations. */
  lemma WrittenBalance(cfg: Config, past: seq<Tables>, log: seq<Entry>, i: nat, id: Id)
    requires History.Valid(cfg, past, log) && i < |log| && id in log[i].writes.balances
    ensures log[i].writes.balances[id] == BalanceOf(past[i], id) + SumOf(log[i].writes.operations, id)
  {
    hide SumOf, Posted;
    EntryPosted(cfg, past, log, i);
    SnapshotSumIsCurrent(cfg, past, log, i, id);
    BalanceIsSum(cfg, past, log, i, id);
    assert BalancePosted(past[log[i].began], log[i].writes, id);
  }

  /** An account found in the snapshot is found, unchanged, at commit time. */
  lemma FoundStaysFound(earlier: Tables, later: Tables, username: string)
    requires Grown(earlier, later) && FindAccount(earlier.accounts, username).Some?
    ensures FindAccount(later.accounts, username) == FindAccount(earlier.accounts, username)
  {
    FindAccountAppend(earlier.accounts, later.accounts[|earlier.accounts|..], username);
    assert later.accounts == earlier.accounts + later.accounts[|earlier.accounts|..];
  }

  lemma SignUpSteps(cfg: Config, tables: Tables, c: nat, req: Request, writes: Tables)
    requires req.SignIn? && req.hash.Some? && FindAccount(tables.accounts, req.username).None?
    requires writes.accounts == [AccountOf(c, req)] && writes.transfers == [] && writes.purchases == []
    requires if cfg.newAccountAmount > 0
             then writes.operations == [Welcome(cfg, c)] && writes.balances.Keys == {Uuid(c, 0)}
                  && writes.balances[Uuid(c, 0)] == BalanceOf(tables, Uuid(c, 0)) + cfg.newAccountAmount
             else writes.operations == [] && writes.balances == map[]
    ensures ServeSignIn(cfg, tables, c, req) == Some(Served(Merge(tables, writes), SignedIn(AccountOf(c, req))))
  {
    if cfg.newAccountAmount > 0 {
      assert tables.balances + writes.balances == tables.balances[Uuid(c, 0) := writes.balances[Uuid(c, 0)]];
    } else {
      assert tables.balances + writes.balances == tables.balances;
      assert tables.operations + [] == tables.operations;
    }
    assert tables.transfers + [] == tables.transfers && tables.purchases + [] == tables.purchases;
  }

  lemma SignUpServes(cfg: Config, past: seq<Tables>, log: seq<Entry>, i: nat)
    requires History.Valid(cfg, past, log) && i < |log| && log[i].req.SignIn?
    requires log[i].began <= i && FindAccount(past[log[i].began].accounts, log[i].req.username).None?
    ensures Serve(cfg, past[i], log[i].client, log[i].req) == Some(Served(past[i + 1], log[i].reply))
  {
    var Entry(c, req, began, writes, reply) := log[i];
    EntryPosted(cfg, past, log, i);
    assert FindAccount(past[i].accounts, req.username).None? by {
      assert Justified(cfg, past, log, i);
      assert AccountOf(c, req) in writes.accounts;
    }
    if cfg.newAccountAmount > 0 {
      var welcome := Welcome(cfg, c);
      assert welcome in writes.operations;
      WrittenBalance(cfg, past, log, i, welcome.account);
      SumByTwo(welcome, welcome, AmountOn(welcome.account));
    }
    SignUpSteps(cfg, past[i], c, req, writes);
  }

  lemma SignInServes(cfg: Config, past: seq<Tables>, log: seq<Entry>, i: nat)
    requires History.Valid(cfg, past, log) && i < |log| && log[i].req.SignIn?
    ensures Serve(cfg, past[i], log[i].client, log[i].req) == Some(Served(past[i + 1], log[i].reply))
  {
    EntryPosted(cfg, past, log, i);
    if FindAccount(past[log[i].began].accounts, log[i].req.username).Some? {
      GrownBetween(cfg, past, log, log[i].began, i);
      FoundStaysFound(past[log[i].began], past[i], log[i].req.username);
      MergeEmpty(past[i]);
    } else {
      SignUpServes(cfg, past, log, i);
    }
  }

  lemma SendServes(cfg: Config, past: seq<Tables>, log: seq<Entry>, i: nat)
    requires History.Valid(cfg, past, log) && i < |log| && log[i].req.SendCoins?
    requires KeyFree(past[i], log[i].req)
    ensures Serve(cfg, past[i], log[i].client, log[i].req) == Some(Served(past[i + 1], log[i].reply))
  {
    hide Justified, SumBy, Reflected, Merge;
    var Entry(c, req, began, writes, reply) := log[i];
    EntryPosted(cfg, past, log, i);
    GrownBetween(cfg, past, log, began, i);
    FoundStaysFound(past[began], past[i], req.target);
    var target := FindAccount(past[began].accounts, req.target).value.id;
    var debit, credit := Debit(c, req), Credit(c, req, target);
    assert debit in writes.operations && credit in writes.operations;
    WrittenBalance(cfg, past, log, i, req.owner);
    WrittenBalance(cfg, past, log, i, target);
    SumByTwo(debit, credit, AmountOn(req.owner));
    SumByTwo(debit, credit, AmountOn(target));
    SendSteps(past[i], c, req, target, writes);
  }

  /** Two postings on running balances add up to the rows the transaction wrote. */
  lemma SendSteps(tables: Tables, c: nat, req: Request, target: Id, writes: Tables)
    requires req.SendCoins? && req.amount > 0 && target != req.owner && KeyFree(tables, req)
    requires HasAccount(tables.accounts, req.owner)
    requires FindAccount(tables.accounts, req.target).Some?
    requires FindAccount(tables.accounts, req.target).value.id == target
    requires writes.accounts == [] && writes.purchases == []
    requires writes.operations == [Debit(c, req), Credit(c, req, target)]
    requires writes.transfers == [SendingRow(c, req, target), ReceivingRow(c, req, target)]
    requires writes.balances.Keys == {req.owner, target}
    requires writes.balances[req.owner] == BalanceOf(tables, req.owner) + Debit(c, req).amount >= 0
    requires writes.balances[target] == BalanceOf(tables, target) + Credit(c, req, target).amount
    ensures ServeSend(tables, c, req)
         == Some(Served(Merge(tables, writes), Sent(SendingRow(c, req, target), ReceivingRow(c, req, target))))
  {
    var debited := Post(tables, Debit(c, req));
    assert debited.Some?;
    var moved := Post(debited.value, Credit(c, req, target));
    assert moved.Some?;
    assert moved.value.operations == tables.operations + writes.operations;
    assert moved.value.balances == tables.balances + writes.balances;
    assert tables.accounts + [] == tables.accounts && tables.purchases + [] == tables.purchases;
  }

  lemma BuySteps(cfg: Config, tables: Tables, c: nat, req: Request, item: ShopItem, writes: Tables)
    requires req.Buy? && req.quantity > 0 && KeyFree(tables, req) && HasAccount(tables.accounts, req.buyer)
    requires FindItem(cfg.items, req.item) == Some(item)
    requires writes.accounts == [] && writes.transfers == []
    requires writes.operations == [Payment(c, req, item)] && writes.purchases == [PurchaseRow(c, req, item)]
    requires writes.balances.Keys == {req.buyer}
    requires writes.balances[req.buyer] == BalanceOf(tables, req.buyer) + Payment(c, req, item).amount >= 0
    ensures ServeBuy(cfg, tables, c, req) == Some(Served(Merge(tables, writes), Bought(PurchaseRow(c, req, item))))
  {
    assert tables.balances + writes.balances == tables.balances[req.buyer := writes.balances[req.buyer]];
    assert tables.accounts + [] == tables.accounts && tables.transfers + [] == tables.transfers;
  }

  lemma BuyServes(cfg: Config, past: seq<Tables>, log: seq<Entry>, i: nat)
    requires History.Valid(cfg, past, log) && i < |log| && log[i].req.Buy?
    requires KeyFree(past[i], log[i].req)
    ensures Serve(cfg, past[i], log[i].client, log[i].req) == Some(Served(past[i + 1], log[i].reply))
  {
    hide Justified, SumBy, Reflected;
    var Entry(c, req, began, writes, reply) := log[i];
    EntryPosted(cfg, past, log, i);
    GrownBetween(cfg, past, log, began, i);
    var item := FindItem(cfg.items, req.item).value;
    var payment := Payment(c, req, item);
    assert payment in writes.operations;
    WrittenBalance(cfg, past, log, i, req.buyer);
    SumByTwo(payment, payment, AmountOn(req.buyer));
    assert HasAccount(past[i].accounts, req.buyer) by {
      var a :| a in past[began].accounts && a.id == req.buyer;
      assert a in past[i].accounts;
    }
    BuySteps(cfg, past[i], c, req, item, writes);
  }

  /** A committed request gives, served alone on the state it committed into, the same tables and the same reply. */
  lemma EntryServes(cfg: Config, past: seq<Tables>, log: seq<Entry>, i: nat)
    requires History.Valid(cfg, past, log) && i < |log|
    requires KeyFree(past[i], log[i].req)
    ensures Serve(cfg, past[i], log[i].client, log[i].req) == Some(Served(past[i + 1], log[i].reply))
  {
    match log[i].req
    case SignIn(_, _) => SignInServes(cfg, past, log, i);
    case SendCoins(_, _, _, _) => SendServes(cfg, past, log, i);
    case Buy(_, _, _, _) => BuyServes(cfg, past, log, i);
  }

  // ----- identity keys -----

  /** Two transfers, or two purchases, with the same identity key. */
  ghost predicate SameKey(a: Request, b: Request) {
    || (a.SendCoins? && b.SendCoins? && a.key.Some? && a.key == b.key)
    || (a.Buy? && b.Buy? && a.key.Some? && a.key == b.key)
  }

  ghost predicate KeysDistinct(log: seq<Entry>, n: nat)
    requires n <= |log|
  {
    forall i, j :: 0 <= i < j < n ==> !SameKey(log[i].req, log[j].req)
  }

  /** The accounts a committed request wrote. */
  ghost function Touched(e: Entry): set<Id> {
    e.writes.balances.Keys
  }

  lemma KeyIsWritten(cfg: Config, e: Entry, snapshot: Tables, req: Request)
    requires Posted(cfg, e.client, e.req, snapshot, e.writes, e.reply) && SameKey(e.req, req)
    ensures !KeyFree(e.writes, req)
  {
    if req.SendCoins? {
      assert e.writes.transfers[0] in e.writes.transfers;
    } else {
      assert e.writes.purchases[0] in e.writes.purchases;
    }
  }

  lemma KeyIsRecorded(cfg: Config, past: seq<Tables>, log: seq<Entry>, i: nat, n: nat, req: Request)
    requires History.Valid(cfg, past, log) && i < n <= |log| && SameKey(log[i].req, req)
    ensures !KeyFree(past[n], req)
  {
    EntryPosted(cfg, past, log, i);
    KeyIsWritten(cfg, log[i], past[log[i].began], req);
    GrownBetween(cfg, past, log, i + 1, n);
    KeyStaysUsed(past[i], log[i].writes, past[n], req);
  }

  lemma KeyStaysUsed(tables: Tables, writes: Tables, later: Tables, req: Request)
    requires !KeyFree(writes, req) && Grown(Merge(tables, writes), later)
    ensures !KeyFree(later, req)
  {
    if req.SendCoins? {
      var row :| row in writes.transfers && row.key == req.key;
      assert row in Merge(tables, writes).transfers;
    } else {
      var row :| row in writes.purchases && row.key == req.key;
      assert row in Merge(tables, writes).purchases;
    }
  }

  lemma {:induction false} UsedKeyHasUser(cfg: Config, past: seq<Tables>, log: seq<Entry>, n: nat, req: Request)
    requires History.Valid(cfg, past, log) && n <= |log| && !KeyFree(past[n], req)
    ensures exists i :: 0 <= i < n && SameKey(log[i].req, req)
  {
    hide Justified, Reflected;
    if n > 0 {
      if !KeyFree(past[n - 1], req) {
        UsedKeyHasUser(cfg, past, log, n - 1, req);
      } else {
        EntryPosted(cfg, past, log, n - 1);
        assert SameKey(log[n - 1].req, req);
      }
    }
  }

  /**
   Two committed requests with one key: the later one took its snapshot before the earlier one committed,
   and the two wrote no account in common.
   */
  lemma SharersAreApart(cfg: Config, past: seq<Tables>, log: seq<Entry>, i: nat, j: nat)
    requires History.Valid(cfg, past, log) && i < j < |log| && SameKey(log[i].req, log[j].req)
    ensures log[j].began <= i
    ensures Touched(log[i]) !! Touched(log[j])
  {
    assert Justified(cfg, past, log, j);
    if i < log[j].began {
      KeyIsRecorded(cfg, past, log, i, log[j].began, log[j].req);
    }
    forall id | id in Touched(log[j]) ensures id !in Touched(log[i]) {
      assert Untouched(log, id, log[j].began, j);
    }
  }

  // ----- the main results -----

  /** Whenever two requests shared an identity key, they also shared an account. */
  ghost predicate SharersMeet(log: seq<Entry>) {
    forall i, j :: 0 <= i < j < |log| && SameKey(log[i].req, log[j].req) ==> Touched(log[i]) * Touched(log[j]) != {}
  }

  lemma {:induction false} DistinctKeysReplay(cfg: Config, past: seq<Tables>, log: seq<Entry>, n: nat)
    requires History.Valid(cfg, past, log) && n <= |log| && KeysDistinct(log, n)
    ensures Replay(cfg, log, n) == Some(past[n])
  {
    hide Serve, Justified, KeyFree, SameKey;
    if n > 0 {
      DistinctKeysReplay(cfg, past, log, n - 1);
      if !KeyFree(past[n - 1], log[n - 1].req) {
        UsedKeyHasUser(cfg, past, log, n - 1, log[n - 1].req);
      }
      EntryServes(cfg, past, log, n - 1);
    }
  }

  lemma {:induction false} ReplayNeedsDistinctKeys(cfg: Config, past: seq<Tables>, log: seq<Entry>, n: nat)
    requires History.Valid(cfg, past, log) && n <= |log| && Replay(cfg, log, n).Some?
    ensures KeysDistinct(log, n)
  {
    if n > 0 {
      ReplayNeedsDistinctKeys(cfg, past, log, n - 1);
      DistinctKeysReplay(cfg, past, log, n - 1);
      forall i | 0 <= i < n - 1 ensures !SameKey(log[i].req, log[n - 1].req) {
        if SameKey(log[i].req, log[n - 1].req) {
          KeyIsRecorded(cfg, past, log, i, n - 1, log[n - 1].req);
        }
      }
    }
  }

  /**
   Serialisability, exactly: in any run, serving the committed requests one at a time in commit order succeeds
   with the same replies and ends in the same tables, if and only if no identity key was used twice.
   */
  lemma SerialisableIff(cfg: Config, acts: seq<Action>, w: World)
    requires Reached(cfg, acts, w)
    ensures Replay(cfg, w.log, |w.log|) == Some(Committed(w)) <==> KeysDistinct(w.log, |w.log|)
  {
    ReachedInv(cfg, acts, w);
    if KeysDistinct(w.log, |w.log|) {
      DistinctKeysReplay(cfg, w.past, w.log, |w.log|);
    }
    if Replay(cfg, w.log, |w.log|).Some? {
      ReplayNeedsDistinctKeys(cfg, w.past, w.log, |w.log|);
    }
  }

  /** Requests that share a key only when they share an account are serialised, at every point of the run. */
  lemma Serialisable(cfg: Config, acts: seq<Action>, w: World, n: nat)
    requires Reached(cfg, acts, w) && n <= |w.log| && SharersMeet(w.log)
    ensures |w.past| == |w.log| + 1
    ensures Replay(cfg, w.log, n) == Some(w.past[n])
  {
    ReachedInv(cfg, acts, w);
    forall i, j | 0 <= i < j < n ensures !SameKey(w.log[i].req, w.log[j].req) {
      if SameKey(w.log[i].req, w.log[j].req) {
        SharersAreApart(cfg, w.past, w.log, i, j);
      }
    }
    DistinctKeysReplay(cfg, w.past, w.log, n);
  }

  /** The accounts a transfer names in its reply are the two it wrote. */
  lemma TransferTouches(cfg: Config, past: seq<Tables>, log: seq<Entry>, i: nat)
    requires History.Valid(cfg, past, log) && i < |log| && log[i].req.SendCoins?
    ensures log[i].began <= i && log[i].reply.Sent?
    ensures log[i].reply.forOwner.owner == log[i].req.owner
    ensures log[i].reply.forOwner.owner != log[i].reply.forTarget.owner
    ensures {log[i].reply.forOwner.owner, log[i].reply.forTarget.owner} <= Touched(log[i])
  {
    EntryPosted(cfg, past, log, i);
    var writes := log[i].writes;
    assert writes.operations[0] in writes.operations && writes.operations[1] in writes.operations;
  }

  /** Two committed transfers with one key overlapped in time and moved coins between four distinct accounts. */
  lemma TransfersWithOneKey(cfg: Config, acts: seq<Action>, w: World, i: nat, j: nat)
    requires Reached(cfg, acts, w) && i < j < |w.log|
    requires w.log[i].req.SendCoins? && w.log[j].req.SendCoins? && SameKey(w.log[i].req, w.log[j].req)
    ensures w.log[j].began <= i && w.log[i].began <= i
    ensures w.log[i].reply.Sent? && w.log[j].reply.Sent?
    ensures |{w.log[i].reply.forOwner.owner, w.log[i].reply.forTarget.owner,
              w.log[j].reply.forOwner.owner, w.log[j].reply.forTarget.owner}| == 4
    ensures w.log[i].req.owner != w.log[j].req.owner
  {
    ReachedInv(cfg, acts, w);
    SharersAreApart(cfg, w.past, w.log, i, j);
    TransferTouches(cfg, w.past, w.log, i);
    TransferTouches(cfg, w.past, w.log, j);
  }

  /** Two committed purchases with one key overlapped in time and were paid by different accounts. */
  lemma PurchasesWithOneKey(cfg: Config, acts: seq<Action>, w: World, i: nat, j: nat)
    requires Reached(cfg, acts, w) && i < j < |w.log|
    requires w.log[i].req.Buy? && w.log[j].req.Buy? && SameKey(w.log[i].req, w.log[j].req)
    ensures w.log[j].began <= i && w.log[i].began <= i
    ensures w.log[i].req.buyer != w.log[j].req.buyer
  {
    ReachedInv(cfg, acts, w);
    SharersAreApart(cfg, w.past, w.log, i, j);
    PurchaseTouches(cfg, w.past, w.log, i);
    PurchaseTouches(cfg, w.past, w.log, j);
  }

  lemma PurchaseTouches(cfg: Config, past: seq<Tables>, log: seq<Entry>, i: nat)
    requires History.Valid(cfg, past, log) && i < |log| && log[i].req.Buy?
    ensures log[i].began <= i
    ensures log[i].req.buyer in Touched(log[i])
  {
    EntryPosted(cfg, past, log, i);
    assert log[i].writes.operations[0] in log[i].writes.operations;
  }
}
