/** What holds in every committed state of every interleaving: the cache, the accounts, no overdraft. */
module Ledger {
  import opened Schema
  import opened Program
  import opened Store
  import opened History
  import opened Posting

  lemma EntryPosted(cfg: Config, past: seq<Tables>, log: seq<Entry>, i: nat)
    requires History.Valid(cfg, past, log) && i < |log|
    ensures log[i].began <= i
    ensures Posted(cfg, log[i].client, log[i].req, past[log[i].began], log[i].writes, log[i].reply)
    ensures Reflected(past[log[i].began], log[i].writes)
    ensures past[i + 1] == Merge(past[i], log[i].writes)
  {
    assert Justified(cfg, past, log, i);
    var e := log[i];
    CompletesMeansPosted(cfg, e.client, e.req, past[e.began], e.writes, e.reply);
    PostedReflects(cfg, e.client, e.req, past[e.began], e.writes, e.reply);
  }

  /** Committed tables only grow. */
  lemma {:induction false} GrownBetween(cfg: Config, past: seq<Tables>, log: seq<Entry>, m: nat, n: nat)
    requires History.Valid(cfg, past, log) && m <= n <= |log|
    ensures Grown(past[m], past[n])
    decreases n
  {
    if m < n {
      GrownBetween(cfg, past, log, m, n - 1);
      assert Justified(cfg, past, log, n - 1);
    }
  }

  /** An account whose balance row no commit wrote in between has gained no operation either. */
  lemma {:induction false} UntouchedSum(cfg: Config, past: seq<Tables>, log: seq<Entry>, id: Id, m: nat, n: nat)
    requires History.Valid(cfg, past, log) && m <= n <= |log|
    requires Untouched(log, id, m, n)
    ensures SumOf(past[m].operations, id) == SumOf(past[n].operations, id)
    decreases n
  {
    if m < n {
      UntouchedSum(cfg, past, log, id, m, n - 1);
      EntryPosted(cfg, past, log, n - 1);
      SumByAppend(past[n - 1].operations, log[n - 1].writes.operations, AmountOn(id));
      SumByZero(log[n - 1].writes.operations, AmountOn(id));
    }
  }

  /** The account a commit writes has, at commit time, the sum it had in the snapshot the upsert was computed from. */
  lemma SnapshotSumIsCurrent(cfg: Config, past: seq<Tables>, log: seq<Entry>, i: nat, id: Id)
    requires History.Valid(cfg, past, log) && i < |log| && id in log[i].writes.balances
    ensures log[i].began <= i
    ensures SumOf(past[log[i].began].operations, id) == SumOf(past[i].operations, id)
  {
    assert Justified(cfg, past, log, i);
    UntouchedSum(cfg, past, log, id, log[i].began, i);
  }

  // ----- the materialised balance -----

  /** Each balance row is the sum of its account's operations, and an account with operations has a row. */
  ghost predicate CacheAgrees(tables: Tables) {
    && (forall id :: id in tables.balances ==> tables.balances[id] == SumOf(tables.operations, id))
    && (forall o :: o in tables.operations ==> o.account in tables.balances)
  }

  lemma CacheStep(tables: Tables, snapshot: Tables, writes: Tables)
    requires CacheAgrees(tables) && Reflected(snapshot, writes)
    requires forall id :: id in writes.balances ==>
               SumOf(snapshot.operations, id) == SumOf(tables.operations, id)
    ensures CacheAgrees(Merge(tables, writes))
  {
    var merged := Merge(tables, writes);
    forall id | id in merged.balances ensures merged.balances[id] == SumOf(merged.operations, id) {
      SumByAppend(tables.operations, writes.operations, AmountOn(id));
      if id in writes.balances {
        assert BalancePosted(snapshot, writes, id);
      } else {
        SumByZero(writes.operations, AmountOn(id));
      }
    }
  }

  lemma {:induction false} CacheAgreesWithLog(cfg: Config, past: seq<Tables>, log: seq<Entry>, n: nat)
    requires History.Valid(cfg, past, log) && n <= |log|
    ensures CacheAgrees(past[n])
  {
    hide Posted, Reflected, SumOf;
    if n > 0 {
      var e := log[n - 1];
      CacheAgreesWithLog(cfg, past, log, n - 1);
      EntryPosted(cfg, past, log, n - 1);
      forall id | id in e.writes.balances { SnapshotSumIsCurrent(cfg, past, log, n - 1, id); }
      CacheStep(past[n - 1], past[e.began], e.writes);
    }
  }

  lemma BalanceIsSum(cfg: Config, past: seq<Tables>, log: seq<Entry>, n: nat, id: Id)
    requires History.Valid(cfg, past, log) && n <= |log|
    ensures BalanceOf(past[n], id) == SumOf(past[n].operations, id)
  {
    CacheAgreesWithLog(cfg, past, log, n);
    if id !in past[n].balances { SumByZero(past[n].operations, AmountOn(id)); }
  }

  // ----- accounts -----

  ghost predicate DistinctAccounts(accounts: seq<Account>) {
    forall i, j :: 0 <= i < j < |accounts| ==>
      accounts[i].username != accounts[j].username && accounts[i].id != accounts[j].id
  }

  /** Account ids were drawn by committed sign-ups; rows only refer to accounts that exist. */
  ghost predicate References(log: seq<Entry>, n: nat, tables: Tables)
    requires n <= |log|
  {
    && (forall a :: a in tables.accounts ==> exists k :: 0 <= k < n && a.id == Uuid(log[k].client, 0))
    && (forall o :: o in tables.operations ==> HasAccount(tables.accounts, o.account))
    && (forall t :: t in tables.transfers ==>
          HasAccount(tables.accounts, t.owner) && HasAccount(tables.accounts, t.counterparty))
    && (forall p :: p in tables.purchases ==> HasAccount(tables.accounts, p.account))
  }

  /** What a commit's new rows refer to exists in its snapshot or is the account it creates. */
  lemma WritesReferToAccounts(cfg: Config, c: nat, req: Request, snapshot: Tables, writes: Tables, reply: Reply)
    requires Posted(cfg, c, req, snapshot, writes, reply)
    ensures var accounts := snapshot.accounts + writes.accounts;
            && (forall o :: o in writes.operations ==> HasAccount(accounts, o.account))
            && (forall t :: t in writes.transfers ==>
                  HasAccount(accounts, t.owner) && HasAccount(accounts, t.counterparty))
            && (forall p :: p in writes.purchases ==> HasAccount(accounts, p.account))
    ensures forall a :: a in writes.accounts ==> a.id == Uuid(c, 0)
  {
    var accounts := snapshot.accounts + writes.accounts;
    match req
    case SignIn(username, _) =>
      if FindAccount(snapshot.accounts, username).None? {
        assert AccountOf(c, req) in accounts;
      }
    case SendCoins(target, owner, _, _) =>
      assert FindAccount(snapshot.accounts, target).value in accounts;
      assert HasAccount(accounts, owner);
    case Buy(_, buyer, _, _) =>
      assert HasAccount(accounts, buyer);
  }

  lemma ReferencesStep(log: seq<Entry>, n: nat, tables: Tables, snapshot: Tables)
    requires n < |log| && References(log, n, tables) && Grown(snapshot, tables)
    requires var accounts := snapshot.accounts + log[n].writes.accounts;
             && (forall o :: o in log[n].writes.operations ==> HasAccount(accounts, o.account))
             && (forall t :: t in log[n].writes.transfers ==>
                   HasAccount(accounts, t.owner) && HasAccount(accounts, t.counterparty))
             && (forall p :: p in log[n].writes.purchases ==> HasAccount(accounts, p.account))
    requires forall a :: a in log[n].writes.accounts ==> a.id == Uuid(log[n].client, 0)
    ensures References(log, n + 1, Merge(tables, log[n].writes))
  {
    var before := snapshot.accounts + log[n].writes.accounts;
    var after := Merge(tables, log[n].writes).accounts;
    assert forall a :: a in before ==> a in after;
    assert forall a :: a in tables.accounts ==> a in after;
    assert forall id :: HasAccount(before, id) || HasAccount(tables.accounts, id) ==> HasAccount(after, id);
  }

  lemma {:induction false} ReferencesHold(cfg: Config, past: seq<Tables>, log: seq<Entry>, n: nat)
    requires History.Valid(cfg, past, log) && n <= |log|
    ensures References(log, n, past[n])
  {
    hide HasAccount, Posted, Justified, Reflected;
    if n > 0 {
      var e := log[n - 1];
      ReferencesHold(cfg, past, log, n - 1);
      EntryPosted(cfg, past, log, n - 1);
      GrownBetween(cfg, past, log, e.began, n - 1);
      WritesReferToAccounts(cfg, e.client, e.req, past[e.began], e.writes, e.reply);
      ReferencesStep(log, n - 1, past[n - 1], past[e.began]);
    } else {
      assert past[0] == EMPTY;
    }
  }

  lemma OneAccountAtMost(cfg: Config, c: nat, req: Request, snapshot: Tables, writes: Tables, reply: Reply)
    requires Posted(cfg, c, req, snapshot, writes, reply)
    ensures |writes.accounts| <= 1 && forall a :: a in writes.accounts ==> a.id == Uuid(c, 0)
  {
  }

  lemma NoAccountsAreDistinct()
    ensures DistinctAccounts([])
  {
  }

  lemma DistinctAppend(older: seq<Account>, newer: seq<Account>)
    requires DistinctAccounts(older) && |newer| <= 1
    requires forall a, b :: a in newer && b in older ==> a.username != b.username && a.id != b.id
    ensures DistinctAccounts(older + newer)
  {
    forall i | 0 <= i < |older| ensures older[i] in older {
    }
  }

  /** Usernames and account ids are unique in every committed state. */
  lemma {:induction false} AccountsAreDistinct(cfg: Config, past: seq<Tables>, log: seq<Entry>, n: nat)
    requires History.Valid(cfg, past, log) && n <= |log|
    ensures DistinctAccounts(past[n].accounts)
  {
    hide DistinctAccounts, Reflected, Posted, Completes;
    if n > 0 {
      AccountsAreDistinct(cfg, past, log, n - 1);
      ReferencesHold(cfg, past, log, n - 1);
      EntryPosted(cfg, past, log, n - 1);
      assert Justified(cfg, past, log, n - 1);
      var older, newer := past[n - 1].accounts, log[n - 1].writes.accounts;
      var e := log[n - 1];
      OneAccountAtMost(cfg, e.client, e.req, past[e.began], e.writes, e.reply);
      forall a, b | a in newer && b in older ensures a.username != b.username && a.id != b.id {
        assert a == newer[0];
      }
      DistinctAppend(older, newer);
    } else {
      NoAccountsAreDistinct();
    }
  }

  /** The id a request draws for a new account is unknown to every state before its commit. */
  lemma NewAccountHasNoOperations(cfg: Config, past: seq<Tables>, log: seq<Entry>, c: nat, n: nat)
    requires History.Valid(cfg, past, log) && n <= |log|
    requires forall k :: 0 <= k < n ==> log[k].client != c
    ensures SumOf(past[n].operations, Uuid(c, 0)) == 0
    ensures Uuid(c, 0) !in past[n].balances
    ensures !HasAccount(past[n].accounts, Uuid(c, 0))
  {
    ReferencesHold(cfg, past, log, n);
    SumByZero(past[n].operations, AmountOn(Uuid(c, 0)));
    BalanceRowsHaveOperations(cfg, past, log, n, Uuid(c, 0));
  }

  lemma {:induction false} BalanceRowsHaveOperations(cfg: Config, past: seq<Tables>, log: seq<Entry>, n: nat, id: Id)
    requires History.Valid(cfg, past, log) && n <= |log|
    ensures id in past[n].balances ==> exists o :: o in past[n].operations && o.account == id
  {
    if n > 0 && id in past[n].balances {
      BalanceRowsHaveOperations(cfg, past, log, n - 1, id);
      EntryPosted(cfg, past, log, n - 1);
      var ops := if id in log[n - 1].writes.balances then log[n - 1].writes.operations else past[n - 1].operations;
      var o :| o in ops && o.account == id;
      assert o in past[n].operations;
    }
  }

  // ----- no overdraft -----

  ghost predicate Covered(tables: Tables) {
    forall id :: id in tables.balances ==> tables.balances[id] >= 0
  }

  /**
   No committed balance is ever negative: debits check their own balance, and concurrent debits of one
   account cannot both commit. No condition on deposits, prices or quantities is needed.
   */
  lemma {:induction false} NoOverdraft(cfg: Config, past: seq<Tables>, log: seq<Entry>, n: nat)
    requires History.Valid(cfg, past, log) && n <= |log|
    ensures Covered(past[n])
  {
    if n > 0 {
      var e := log[n - 1];
      EntryPosted(cfg, past, log, n - 1);
      NoOverdraft(cfg, past, log, n - 1);
      forall id | id in e.writes.balances ensures e.writes.balances[id] >= 0 {
        assert BalancePosted(past[e.began], e.writes, id);
        BalanceIsSum(cfg, past, log, e.began, id);
        NoOverdraft(cfg, past, log, e.began);
        assert SumOf(past[e.began].operations, id) >= 0;
        WrittenBalancesCovered(cfg, e.client, e.req, past[e.began], e.writes, e.reply, id);
      }
    }
  }

  lemma WrittenBalancesCovered(cfg: Config, c: nat, req: Request, snapshot: Tables, writes: Tables, reply: Reply,
                               id: Id)
    requires Posted(cfg, c, req, snapshot, writes, reply) && Reflected(snapshot, writes)
    requires id in writes.balances && SumOf(snapshot.operations, id) >= 0
    ensures writes.balances[id] >= 0
  {
    assert BalancePosted(snapshot, writes, id);
    match req
    case SignIn(_, _) =>
      if writes.operations != [] {
        assert writes.operations == [Welcome(cfg, c)];
        SumByTwo(Welcome(cfg, c), Welcome(cfg, c), AmountOn(id));
      }
    case SendCoins(target, _, _, _) =>
      var to := FindAccount(snapshot.accounts, target).value.id;
      SumByTwo(Debit(c, req), Credit(c, req, to), AmountOn(id));
    case Buy(_, _, _, _) =>
  }
}
