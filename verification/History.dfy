/** What a sequence of commits looks like when every request ran against its own snapshot. */
module History {
  import opened Schema
  import opened Failures
  import opened Program
  import opened Store

  datatype Plan = Plan(lines: seq<Line>, reply: Reply)

  ghost predicate KeyFree(tables: Tables, req: Request) {
    match req
    case SignIn(_, _) => true
    case SendCoins(_, _, _, key) => key.Some? ==> !HasTransferKey(tables.transfers, key.value)
    case Buy(_, _, _, key) => key.Some? ==> !HasPurchaseKey(tables.purchases, key.value)
  }

  /** What the lookups of a request against one snapshot decide to write; None when they end in an error. */
  function PlanOf(cfg: Config, c: nat, req: Request, snapshot: Tables): Option<Plan> {
    match req
    case SignIn(username, hash) =>
      var found := FindAccount(snapshot.accounts, username);
      if found.Some? then Some(Plan([], SignedIn(found.value)))
      else if hash.None? then None
      else Some(Plan(SignUpLines(cfg, c, req), SignedIn(AccountOf(c, req))))
    case SendCoins(target, owner, _, _) =>
      var found := FindAccount(snapshot.accounts, target);
      if found.None? || found.value.id == owner then None
      else Some(Plan(SendLines(c, req, found.value.id),
                     Sent(SendingRow(c, req, found.value.id), ReceivingRow(c, req, found.value.id))))
    case Buy(name, _, _, _) =>
      var found := FindItem(cfg.items, name);
      if found.None? then None
      else Some(Plan(BuyLines(c, req, found.value), Bought(PurchaseRow(c, req, found.value))))
  }

  function RunLine(cfg: Config, snapshot: Tables, writes: Tables, line: Line): Option<Tables> {
    match Execute(cfg, snapshot, writes, line.stmt)
    case Broken(_) => None
    case Fine(writes', response) =>
      if line.guarded && response.BalanceRow? && response.balance < 0 then None else Some(writes')
  }

  /** The rows written by the first n lines, when all of them succeed. */
  function RunLines(cfg: Config, snapshot: Tables, lines: seq<Line>, n: nat): Option<Tables>
    requires n <= |lines|
  {
    if n == 0 then Some(EMPTY)
    else
      match RunLines(cfg, snapshot, lines, n - 1)
      case None => None
      case Some(writes) => RunLine(cfg, snapshot, writes, lines[n - 1])
  }

  /** The request, run to its end against one snapshot, writes exactly `writes` and answers `reply`. */
  ghost predicate Completes(cfg: Config, c: nat, req: Request, snapshot: Tables, writes: Tables, reply: Reply) {
    && (req.SendCoins? ==> req.amount > 0)
    && KeyFree(snapshot, req)
    && var plan := PlanOf(cfg, c, req, snapshot);
    && plan.Some? && plan.value.reply == reply
    && RunLines(cfg, snapshot, plan.value.lines, |plan.value.lines|) == Some(writes)
  }

  /**
   Why a request is refused although no statement of it failed, in terms of what its snapshot holds. The first
   reason that applies is the one given.
   */
  ghost predicate Refusal(cfg: Config, snapshot: Tables, req: Request, f: Failure) {
    match req
    case SignIn(username, hash) =>
      f == From(Internal) && hash.None? && forall a :: a in snapshot.accounts ==> a.username != username
    case SendCoins(target, owner, amount, key) =>
      if exists t :: t in snapshot.transfers && t.key.Some? && t.key == key then f == From(Conflict)
      else if forall a :: a in snapshot.accounts ==> a.username != target then f == From(StoreNoRows)
      else if FindAccount(snapshot.accounts, target).value.id == owner then f == From(Conflict)
      else f == NotEnoughFunds && SumOf(snapshot.operations, owner) < amount
    case Buy(name, buyer, quantity, key) =>
      if exists p :: p in snapshot.purchases && p.key.Some? && p.key == key then f == From(Conflict)
      else if forall i :: i in cfg.items ==> i.name != name then f == From(StoreNoRows)
      else
        var price := FindItem(cfg.items, name).value.price;
        f == NotEnoughFunds && SumOf(snapshot.operations, buyer) + Negate64(Wrap64(price * quantity)) < 0
  }

  /** What a successful request answers, in terms of what it asked and what its snapshot holds. */
  ghost predicate Answer(cfg: Config, snapshot: Tables, req: Request, reply: Reply) {
    match req
    case SignIn(username, hash) =>
      && reply.SignedIn? && reply.account.username == username
      && (|| reply.account in snapshot.accounts
          || (&& Some(reply.account.passwordHash) == hash
              && forall a :: a in snapshot.accounts ==> a.username != username))
    case SendCoins(target, owner, amount, key) =>
      && reply.Sent?
      && var CoinTransfer(_, kind, from, to, coins, usedKey) := reply.forOwner;
      && var CoinTransfer(_, kind', from', to', coins', usedKey') := reply.forTarget;
      && kind == Sending && from == owner && coins == amount > 0 && usedKey == key
      && kind' == Receiving && to' == owner && coins' == amount && usedKey' == key
      && from' == to != owner
      && exists a :: a in snapshot.accounts && a.username == target && a.id == to
    case Buy(name, buyer, quantity, key) =>
      && reply.Bought?
      && var ShopPurchase(_, item, account, pieces, usedKey) := reply.purchase;
      && account == buyer && pieces == quantity > 0 && usedKey == key
      && exists i :: i in cfg.items && i.name == name && i.id == item
  }

  /** None of the commits m, m + 1, ..., n - 1 wrote the balance row of this account. */
  ghost predicate Untouched(log: seq<Entry>, id: Id, m: nat, n: nat)
    requires n <= |log|
  {
    forall k :: m <= k < n ==> id !in log[k].writes.balances
  }

  /** Commit i: justified by its own snapshot, and no commit in between touched the rows it wrote. */
  ghost predicate Justified(cfg: Config, past: seq<Tables>, log: seq<Entry>, i: nat)
    requires i < |log| < |past|
  {
    var e := log[i];
    && e.began <= i
    && Completes(cfg, e.client, e.req, past[e.began], e.writes, e.reply)
    && (forall id :: id in e.writes.balances ==> Untouched(log, id, e.began, i))
    && (forall a :: a in e.writes.accounts ==> FindAccount(past[i].accounts, a.username).None?)
    && (forall k :: 0 <= k < i ==> log[k].client != e.client)
    && past[i + 1] == Merge(past[i], e.writes)
  }

  ghost predicate Valid(cfg: Config, past: seq<Tables>, log: seq<Entry>) {
    && |past| == |log| + 1
    && past[0] == EMPTY
    && forall i :: 0 <= i < |log| ==> Justified(cfg, past, log, i)
  }
}
