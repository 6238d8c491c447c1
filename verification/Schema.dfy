/** The tables of the coin ledger, the rows they hold, and the int64 arithmetic of the program. */
module Schema {

  datatype Option<+T> = None | Some(value: T)

  const MIN_INT64: int := -0x8000_0000_0000_0000
  const MAX_INT64: int := 0x7fff_ffff_ffff_ffff

  type int64 = x: int | MIN_INT64 <= x <= MAX_INT64

  predicate FitsInt64(x: int) {
    MIN_INT64 <= x <= MAX_INT64
  }

  /** Go integer arithmetic: the result of an operation is reduced modulo 2^64. */
  function Wrap64(x: int): (r: int64)
    ensures FitsInt64(x) <==> r == x
    ensures (x - r) % 0x1_0000_0000_0000_0000 == 0
  {
    (x - MIN_INT64) % 0x1_0000_0000_0000_0000 + MIN_INT64
  }

  function Negate64(x: int64): (r: int64)
    ensures x != MIN_INT64 ==> r == -x
    ensures x == MIN_INT64 ==> r == x
  {
    Wrap64(0 - (x as int))
  }

  /** The draw-th identifier that request number `request` obtained from uuid.New: never drawn twice. */
  datatype Id = Uuid(request: nat, draw: nat)

  datatype Account = Account(id: Id, username: string, passwordHash: string)

  datatype OperationType = Increase | Decrease
  datatype SourceType = FromDeposit | FromPurchase | FromTransfer

  /** A row of `operation`; the amount carries the sign that is stored. */
  datatype Operation =
    Operation(id: Id, kind: OperationType, account: Id, amount: int64, source: SourceType, sourceId: Option<Id>)

  datatype CoinTransferType = Sending | Receiving

  datatype CoinTransfer =
    CoinTransfer(id: Id, kind: CoinTransferType, owner: Id, counterparty: Id, amount: int64, key: Option<Id>)

  datatype ShopItem = ShopItem(id: Id, name: string, price: int64)

  datatype ShopPurchase = ShopPurchase(id: Id, item: Id, account: Id, quantity: int64, key: Option<Id>)

  /** What never changes while the service runs: the catalogue and the welcome amount. */
  datatype Config = Config(items: seq<ShopItem>, newAccountAmount: int64)

  /** The contents of the tables, or the rows one transaction adds to them. */
  datatype Tables = Tables(
    accounts: seq<Account>,
    operations: seq<Operation>,
    balances: map<Id, int64>,
    transfers: seq<CoinTransfer>,
    purchases: seq<ShopPurchase>)

  const EMPTY: Tables := Tables([], [], map[], [], [])

  /** The tables after the rows of `added` are added; every table but `operation_balance` only grows. */
  function Merge(tables: Tables, added: Tables): Tables {
    Tables(tables.accounts + added.accounts,
           tables.operations + added.operations,
           tables.balances + added.balances,
           tables.transfers + added.transfers,
           tables.purchases + added.purchases)
  }

  lemma MergeEmpty(tables: Tables)
    ensures Merge(tables, EMPTY) == tables
  {
    assert tables.balances + EMPTY.balances == tables.balances;
  }

  /** `later` still holds every row of `earlier`, in place. */
  ghost predicate Grown(earlier: Tables, later: Tables) {
    && earlier.accounts <= later.accounts
    && earlier.operations <= later.operations
    && earlier.balances.Keys <= later.balances.Keys
    && earlier.transfers <= later.transfers
    && earlier.purchases <= later.purchases
  }

  function FindAccount(accounts: seq<Account>, username: string): (found: Option<Account>)
    ensures found.Some? ==> found.value in accounts && found.value.username == username
    ensures found.None? ==> forall a :: a in accounts ==> a.username != username
  {
    if accounts == [] then None
    else if accounts[0].username == username then Some(accounts[0])
    else FindAccount(accounts[1..], username)
  }

  lemma {:induction false} FindAccountAppend(first: seq<Account>, second: seq<Account>, username: string)
    ensures FindAccount(first + second, username)
         == if FindAccount(first, username).Some? then FindAccount(first, username)
            else FindAccount(second, username)
  {
    if first == [] {
      assert first + second == second;
    } else {
      assert (first + second)[1..] == first[1..] + second;
      FindAccountAppend(first[1..], second, username);
    }
  }

  predicate HasAccount(accounts: seq<Account>, id: Id) {
    exists a :: a in accounts && a.id == id
  }

  function FindItem(items: seq<ShopItem>, name: string): (found: Option<ShopItem>)
    ensures found.Some? ==> found.value in items && found.value.name == name
    ensures found.None? ==> forall i :: i in items ==> i.name != name
  {
    if items == [] then None
    else if items[0].name == name then Some(items[0])
    else FindItem(items[1..], name)
  }

  predicate HasItem(items: seq<ShopItem>, id: Id) {
    exists i :: i in items && i.id == id
  }

  predicate HasTransferKey(transfers: seq<CoinTransfer>, key: Id) {
    exists t :: t in transfers && t.key == Some(key)
  }

  predicate HasPurchaseKey(purchases: seq<ShopPurchase>, key: Id) {
    exists p :: p in purchases && p.key == Some(key)
  }

  // ----- sums -----

  function SumBy<T>(xs: seq<T>, f: T -> int): int {
    if xs == [] then 0 else f(xs[0]) + SumBy(xs[1..], f)
  }

  lemma {:induction false} SumByAppend<T>(xs: seq<T>, ys: seq<T>, f: T -> int)
    ensures SumBy(xs + ys, f) == SumBy(xs, f) + SumBy(ys, f)
  {
    if xs == [] {
      assert xs + ys == ys;
    } else {
      assert (xs + ys)[1..] == xs[1..] + ys;
      SumByAppend(xs[1..], ys, f);
    }
  }

  lemma SumByTwo<T>(x: T, y: T, f: T -> int)
    ensures SumBy([x], f) == f(x)
    ensures SumBy([x, y], f) == f(x) + f(y)
  {
    assert [x, y][1..] == [y];
    assert SumBy([y], f) == f(y) + SumBy([], f);
  }

  lemma {:induction false} SumByZero<T>(xs: seq<T>, f: T -> int)
    requires forall x :: x in xs ==> f(x) == 0
    ensures SumBy(xs, f) == 0
  {
    if xs != [] {
      SumByZero(xs[1..], f);
    }
  }

  /** The signed amount an operation contributes to one account. */
  function AmountOn(account: Id): Operation -> int {
    (o: Operation) => if o.account == account then o.amount else 0
  }

  /** SELECT COALESCE(SUM(amount), 0) FROM operation WHERE account_id = account: exact, since the sum is numeric. */
  function SumOf(operations: seq<Operation>, account: Id): int {
    SumBy(operations, AmountOn(account))
  }

  /** The balance row of an account, or zero when it has none. */
  function BalanceOf(tables: Tables, account: Id): int64 {
    if account in tables.balances then tables.balances[account] else 0
  }
}
