/** What snapshots and runs of the mutable ledger promise together. */
module Snapshots {
  import opened Uint64
  import opened Aggregates
  import opened DexBatch
  import opened LedgerRuns
  import opened Genesis
  import opened Sorting
  import opened MockState
  import Hex

  /** The snapshot's lists do not depend on the order the maps were ranged over. */
  lemma SnapshotIsCanonical(
    accounts: map<string, U64>, validators: map<string, ValidatorInfo>, books: map<U64, seq<SellOrder>>,
    a: seq<Account>, a': seq<Account>, v: seq<Validator>, v': seq<Validator>, b: seq<OrderBook>, b': seq<OrderBook>)
    requires AccountsOf(a, accounts) && AccountsOf(a', accounts)
    requires ValidatorsOf(v, validators) && ValidatorsOf(v', validators)
    requires BooksOf(b, books) && BooksOf(b', books)
    ensures a == a' && v == v' && b == b'
  {
    ListIsUnique(a, a', accounts, MakeAccount, AccountKey);
    ListIsUnique(v, v', validators, MakeValidator, ValidatorKey);
    SortedIsUnique(b, b', (x: OrderBook, y: OrderBook) => Signed(x.chainId) < Signed(y.chainId));
  }

  /** Nor does the pool list: ids and values are determined, only the clones are new. */
  lemma PoolListIsCanonical(a: seq<Pool>, b: seq<Pool>, liquidityId: U64, ps: Pools)
    requires PoolsOf(a, liquidityId, ps) && PoolsOf(b, liquidityId, ps)
    ensures Ids(a) == Ids(b)
    ensures forall i :: 0 <= i < |a| ==> a[i].Value() == b[i].Value()
  {
    var less := (x: U64, y: U64) => x < y;
    forall i | 0 <= i < |a| ensures Ids(a)[i] in Ids(b) { assert a[i].id in ps; }
    forall i | 0 <= i < |b| ensures Ids(b)[i] in Ids(a) { assert b[i].id in ps; }
    SortedIsUnique(Ids(a), Ids(b), less);
    forall i | 0 <= i < |a| ensures a[i].Value() == b[i].Value() {
      assert Ids(a)[i] == Ids(b)[i];
    }
  }

  /** The account list is in the order of the addresses themselves, byte by byte. */
  lemma AccountsInAddressOrder(list: seq<Account>, i: nat, j: nat)
    requires Sorted(list, ByKey(AccountKey)) && i < j < |list|
    ensures Hex.BytesLess(list[i].address, list[j].address)
  {
    var a, b := list[i], list[j];
    assert ByKey(AccountKey)(a, b);
    assert Hex.StringLess(AccountKey(a), AccountKey(b));
    assert AccountKey(a) == Hex.EncodeToString(a.address) && AccountKey(b) == Hex.EncodeToString(b.address);
    Hex.PreservesOrder(a.address, b.address);
  }

  /** True when all chain ids are on the same side of 2^63. */
  ghost predicate OneSided(m: map<U64, seq<SellOrder>>) {
    forall k, l :: k in m && l in m && k < MOD / 2 ==> l < MOD / 2
  }

  ghost predicate Ascending(list: seq<OrderBook>) {
    forall i, j :: 0 <= i < j < |list| ==> list[i].chainId < list[j].chainId
  }

  /** The books come in ascending order of their chain ids exactly when ids on
      both sides of 2^63 do not occur together. */
  lemma BooksInChainOrder(list: seq<OrderBook>, m: map<U64, seq<SellOrder>>)
    requires BooksOf(list, m)
    ensures Ascending(list) <==> OneSided(m)
  {
    if OneSided(m) {
      forall i, j | 0 <= i < j < |list| ensures list[i].chainId < list[j].chainId {
        assert MadeFrom(list[i], m, MakeBook) && MadeFrom(list[j], m, MakeBook);
        assert Signed(list[i].chainId) < Signed(list[j].chainId);
      }
    } else {
      var k, l :| k in m && l in m && k < MOD / 2 && l >= MOD / 2;
      var i := PositionOf(list, m, k);
      var j := PositionOf(list, m, l);
      assert Signed(l) < 0 <= Signed(k);
      assert j < i;
      assert list[j].chainId > list[i].chainId;
    }
  }

  lemma PositionOf(list: seq<OrderBook>, m: map<U64, seq<SellOrder>>, k: U64) returns (i: nat)
    requires Lists(list, m, MakeBook) && k in m
    ensures i < |list| && list[i].chainId == k
  {
    assert MakeBook(k, m[k]) in list;
    i :| 0 <= i < |list| && list[i] == MakeBook(k, m[k]);
  }

  /** Loading the accounts of a snapshot gives back the account map. */
  lemma AccountsRoundTrip(list: seq<Account>, m: map<string, U64>)
    requires AccountsOf(list, m)
    requires forall k :: k in m ==> Hex.EncodeToString(Hex.DecodeString(k)) == k
    ensures Load(list, AccountKey, AmountOf) == m
  {
    LoadInvertsList(list, m, MakeAccount, AccountKey, AmountOf);
  }

  /** Loading the validators of a snapshot gives back the validators, none paused. */
  lemma ValidatorsRoundTrip(list: seq<Validator>, m: map<string, ValidatorInfo>)
    requires ValidatorsOf(list, m)
    requires forall k :: k in m ==> Hex.EncodeToString(m[k].addr) == k
    ensures Load(list, ValidatorKey, InfoOf) == map k | k in m :: m[k].(paused := false)
  {
    var unpaused := map k | k in m :: m[k].(paused := false);
    forall i | 0 <= i < |list| ensures MadeFrom(list[i], unpaused, MakeValidator) {
      assert MadeFrom(list[i], m, MakeValidator);
      var k :| k in m && list[i] == MakeValidator(k, m[k]);
      assert k in unpaused && list[i] == MakeValidator(k, unpaused[k]);
    }
    forall k | k in unpaused ensures MakeValidator(k, unpaused[k]) in list {
      assert MakeValidator(k, m[k]) in list;
    }
    LoadInvertsList(list, unpaused, MakeValidator, ValidatorKey, InfoOf);
  }

  /** Loading the order books of a snapshot gives back the books, whatever the chain ids. */
  lemma BooksRoundTrip(list: seq<OrderBook>, m: map<U64, seq<SellOrder>>)
    requires BooksOf(list, m)
    ensures Load(list, ChainOf, OrdersOf) == m
  {
    LoadInvertsList(list, m, MakeBook, ChainOf, OrdersOf);
  }

  /** Loading the pools of a snapshot files every clone under its own id. */
  lemma PoolsRoundTrip(list: seq<Pool>, liquidityId: U64, ps: Pools)
    requires PoolsOf(list, liquidityId, ps)
    ensures var loaded := Load(list, IdOf, Itself);
            && loaded.Keys == ps.Keys
            && forall k :: k in loaded ==>
                 loaded[k] in list && loaded[k].id == k && loaded[k].Value() == Cloned(liquidityId, k, ps[k])
  {
    var loaded := Load(list, IdOf, Itself);
    LoadedFrom(list, IdOf, Itself);
    LoadHasKeys(list, IdOf, Itself);
    forall k | k in loaded
      ensures k in ps && loaded[k] in list && loaded[k].id == k && loaded[k].Value() == Cloned(liquidityId, k, ps[k])
    {
      assert ComesFrom(list, IdOf, Itself, k, loaded[k]);
      var i :| 0 <= i < |list| && IdOf(list[i]) == k && Itself(list[i]) == loaded[k];
    }
    forall k | k in ps ensures k in loaded {
      assert k in Ids(list);
      var i :| 0 <= i < |list| && Ids(list)[i] == k;
      assert IdOf(list[i]) in loaded;
    }
  }

  lemma {:induction false} LoadHasKeys<K, V, T>(list: seq<T>, key: T -> K, value: T -> V)
    ensures forall i :: 0 <= i < |list| ==> key(list[i]) in Load(list, key, value)
  {
    if list != [] { LoadHasKeys(list[..|list| - 1], key, value); }
  }

  /** A ledger rebuilt from a snapshot holds the same accounts, stakes, order books
      and pool amounts, the same points in its liquidity pool, and passes on the same
      parameters and committees. */
  method Reload(s: State, holdingAddend: U64, liquidityAddend: U64) returns (t: State)
    requires s.Valid() && holdingAddend != liquidityAddend
    requires s.liquidityId == Wrap(s.chainId + liquidityAddend)
    ensures t.Valid() && t.accounts == s.accounts && t.orderBooks == s.orderBooks
    ensures t.params == s.params && t.committeeSet == s.committeeSet
    ensures t.validators == map k | k in s.validators :: s.validators[k].(paused := false)
    ensures t.PoolValues().Keys == s.PoolValues().Keys
    ensures forall k :: k in s.PoolValues() ==> t.PoolValues()[k] == Cloned(s.liquidityId, k, s.PoolValues()[k])
  {
    var g := s.Snapshot();
    AccountsRoundTrip(g.accounts, s.accounts);
    ValidatorsRoundTrip(g.validators, s.validators);
    BooksRoundTrip(g.orderBooks, s.orderBooks);
    t := new State(s.chainId, s.over, holdingAddend, liquidityAddend,
                   g.accounts, g.validators, g.pools, g.params, g.orderBooks, g.committees, s.sha);
    ReloadedPools(s, t, g.pools);
  }

  lemma ReloadedPools(s: State, t: State, list: seq<Pool>)
    requires s.Valid() && PoolsOf(list, s.liquidityId, s.PoolValues()) && t.pools == Load(list, IdOf, Itself)
    ensures t.PoolValues().Keys == s.PoolValues().Keys
    ensures forall k :: k in s.PoolValues() ==> t.PoolValues()[k] == Cloned(s.liquidityId, k, s.PoolValues()[k])
  {
    PoolsRoundTrip(list, s.liquidityId, s.PoolValues());
    assert t.pools.Keys == s.PoolValues().Keys;
  }

  /** Any sequence of operations on the object does to its pools what the run does. */
  method Replay(s: State, ops: seq<Op>)
    requires s.Valid()
    modifies s`height, s`events, s`doubleSign, s`nonSigners, s.pools.Values
    ensures s.Valid()
    ensures s.PoolValues() == Run(s.Cfg(), old(s.PoolValues()), ops)
  {
    for i := 0 to |ops|
      invariant s.Valid()
      invariant s.PoolValues() == Run(s.Cfg(), old(s.PoolValues()), ops[..i])
    {
      assert ops[..i + 1][..i] == ops[..i];
      Apply(s, ops[i]);
    }
    assert ops[..|ops|] == ops;
  }

  method Apply(s: State, op: Op)
    requires s.Valid()
    modifies s`height, s`events, s`doubleSign, s`nonSigners, s.pools.Values
    ensures s.Valid()
    ensures s.PoolValues() == Step(s.Cfg(), old(s.PoolValues()), op)
  {
    match op
    case BeginBlock(height) => var _, _ := s.BeginBlock(height);
    case Orders(os) => s.ApplyBatchOrders(os);
    case Deposits(ds) => s.ApplyBatchDeposits(ds);
    case Withdraws(ws) => var _ := s.ApplyBatchWithdrawals(ws);
  }

  /** The pools of a snapshot have the ids, amounts and totals of the pools ps. */
  ghost predicate TotalsOf(list: seq<Pool>, liquidityId: U64, ps: Pools)
    reads list
  {
    && (forall k :: k in ps <==> k in Ids(list))
    && (forall i, j :: 0 <= i < j < |list| ==> list[i].id < list[j].id)
    && forall i :: 0 <= i < |list| ==>
         && list[i].id in ps
         && list[i].amount == ps[list[i].id].amount
         && list[i].totalPoolPoints == Cloned(liquidityId, list[i].id, ps[list[i].id]).total
  }

  lemma PoolsHaveTotals(list: seq<Pool>, liquidityId: U64, ps: Pools)
    requires PoolsOf(list, liquidityId, ps)
    ensures TotalsOf(list, liquidityId, ps)
  {
    forall i | 0 <= i < |list|
      ensures list[i].amount == ps[list[i].id].amount
      ensures list[i].totalPoolPoints == Cloned(liquidityId, list[i].id, ps[list[i].id]).total
    {
      assert list[i].Value() == Cloned(liquidityId, list[i].id, ps[list[i].id]);
    }
    forall k | k in Ids(list) ensures k in ps {
      var i :| 0 <= i < |list| && Ids(list)[i] == k;
    }
  }

  /** Snapshot isolation: whatever happens to the ledger afterwards, the pools of a
      snapshot keep the amounts and totals they had when it was taken, and its supply
      stays that of the moment. */
  method SnapshotThenReplay(s: State, ops: seq<Op>) returns (g: GenesisState)
    requires s.Valid()
    modifies s`height, s`events, s`doubleSign, s`nonSigners, s.pools.Values
    ensures TotalsOf(g.pools, s.liquidityId, old(s.PoolValues()))
    ensures AccountsOf(g.accounts, old(s.accounts)) && ValidatorsOf(g.validators, old(s.validators))
    ensures g.supply == SupplyOf(old(s.accounts), old(s.validators), old(s.PoolValues()), g.pools)
    ensures s.PoolValues() == Run(s.Cfg(), old(s.PoolValues()), ops)
  {
    g := s.Snapshot();
    PoolsHaveTotals(g.pools, s.liquidityId, s.PoolValues());
    Replay(s, ops);
  }

  /** The supply ledger over whole runs: the supply a snapshot reports after any
      operations is the supply before them plus their net flow, as a word; in
      plain numbers when everything fits one. */
  method SupplyLedger(s: State, ops: seq<Op>) returns (before: Supply, after: Supply)
    requires s.Valid() && Balanced(s.Cfg(), s.PoolValues())
    requires EntrySum(s.Cfg(), s.PoolValues()) + GrantedIn(ops) < MOD
    modifies s`height, s`events, s`doubleSign, s`nonSigners, s.pools.Values
    ensures var was := old(Holdings(s.accounts, s.validators, s.PoolValues()));
            var flow := NetFlow(s.Cfg(), old(s.PoolValues()), ops);
            && before.total == Wrap(was)
            && after.total == Wrap(was + flow)
            && (was + GrossIn(ops) < MOD ==> before.total == was && after.total == was + flow)
    ensures after.staked == before.staked
  {
    ghost var ps, accounts, validators := s.PoolValues(), s.accounts, s.validators;
    SupplyOfRun(s.Cfg(), ps, ops, accounts, validators);
    if Holdings(accounts, validators, ps) + GrossIn(ops) < MOD {
      PlainSupplyOfRun(s.Cfg(), ps, ops, accounts, validators);
    }
    before, after := SuppliesAround(s, ops);
  }

  /** The supply a snapshot reports before and after the operations. */
  method SuppliesAround(s: State, ops: seq<Op>) returns (before: Supply, after: Supply)
    requires s.Valid()
    modifies s`height, s`events, s`doubleSign, s`nonSigners, s.pools.Values
    ensures before.total == TotalSupply(old(s.accounts), old(s.validators), old(s.PoolValues()))
    ensures after.total == TotalSupply(old(s.accounts), old(s.validators), Run(s.Cfg(), old(s.PoolValues()), ops))
    ensures before.staked == after.staked
  {
    var g := s.Snapshot();
    before := g.supply;
    Replay(s, ops);
    var g' := s.Snapshot();
    after := g'.supply;
  }

  /** The supply reported after a run, from what the ledger held before it. */
  lemma SupplyOfRun(cfg: Config, ps: Pools, ops: seq<Op>, accounts: map<string, U64>,
                    validators: map<string, ValidatorInfo>)
    requires Balanced(cfg, ps) && cfg.holdingId != cfg.liquidityId
    requires EntrySum(cfg, ps) + GrantedIn(ops) < MOD
    ensures TotalSupply(accounts, validators, Run(cfg, ps, ops))
         == Wrap(Holdings(accounts, validators, ps) + NetFlow(cfg, ps, ops))
  {
    var rest := Rest(accounts, validators);
    var was, flow := rest + PoolSum(ps), NetFlow(cfg, ps, ops);
    SupplyWordOverRun(cfg, ps, ops, rest);
    TotalIs(Run(cfg, ps, ops), accounts, validators, rest, Wrap(was + flow));
    HoldingsAre(ps, accounts, validators, rest);
  }

  /** What the ledger holds outside its pools. */
  ghost function Rest(accounts: map<string, U64>, validators: map<string, ValidatorInfo>): nat {
    MapSumNonNegative(accounts);
    MapSumNonNegative(Stakes(validators));
    MapSum(accounts) + MapSum(Stakes(validators))
  }

  lemma HoldingsAre(ps: Pools, accounts: map<string, U64>, validators: map<string, ValidatorInfo>, rest: int)
    requires rest == Rest(accounts, validators)
    ensures Holdings(accounts, validators, ps) == rest + PoolSum(ps)
  {}

  lemma TotalIs(ps: Pools, accounts: map<string, U64>, validators: map<string, ValidatorInfo>, rest: int, total: int)
    requires rest == Rest(accounts, validators) && Wrap(rest + PoolSum(ps)) == total
    ensures TotalSupply(accounts, validators, ps) == total
  {
    HoldingsAre(ps, accounts, validators, rest);
  }

  /** In plain numbers: when what the ledger holds and all the operations could
      bring in fit a word, the supply moves by exactly the net flow. */
  lemma PlainSupplyOfRun(cfg: Config, ps: Pools, ops: seq<Op>, accounts: map<string, U64>,
                         validators: map<string, ValidatorInfo>)
    requires Balanced(cfg, ps) && cfg.holdingId != cfg.liquidityId
    requires EntrySum(cfg, ps) + GrantedIn(ops) < MOD
    requires Holdings(accounts, validators, ps) + GrossIn(ops) < MOD
    ensures TotalSupply(accounts, validators, ps) == Holdings(accounts, validators, ps)
    ensures TotalSupply(accounts, validators, Run(cfg, ps, ops))
         == Holdings(accounts, validators, ps) + NetFlow(cfg, ps, ops)
  {
    GrossInNonNegative(ops);
    PlainSupply(ps, accounts, validators);
    PlainSupplyAfter(cfg, ps, ops, accounts, validators);
  }

  /** A ledger whose holdings fit a word reports them as they are. */
  lemma PlainSupply(ps: Pools, accounts: map<string, U64>, validators: map<string, ValidatorInfo>)
    requires Holdings(accounts, validators, ps) < MOD
    ensures TotalSupply(accounts, validators, ps) == Holdings(accounts, validators, ps)
  {
    MapSumNonNegative(accounts);
    MapSumNonNegative(Stakes(validators));
    MapSumNonNegative(PoolAmounts(ps));
    SmallWord(Holdings(accounts, validators, ps));
  }

  lemma PlainSupplyAfter(cfg: Config, ps: Pools, ops: seq<Op>, accounts: map<string, U64>,
                         validators: map<string, ValidatorInfo>)
    requires Balanced(cfg, ps) && cfg.holdingId != cfg.liquidityId
    requires EntrySum(cfg, ps) + GrantedIn(ops) < MOD
    requires Holdings(accounts, validators, ps) + GrossIn(ops) < MOD
    ensures TotalSupply(accounts, validators, Run(cfg, ps, ops))
         == Holdings(accounts, validators, ps) + NetFlow(cfg, ps, ops)
  {
    var rest := Rest(accounts, validators);
    HoldingsAre(ps, accounts, validators, rest);
    ExactSupplyOverRun(cfg, ps, ops, rest);
    TotalIs(Run(cfg, ps, ops), accounts, validators, rest, rest + PoolSum(ps) + NetFlow(cfg, ps, ops));
  }

  lemma {:induction false} GrossInNonNegative(ops: seq<Op>)
    ensures 0 <= GrossIn(ops)
  {
    if ops != [] {
      GrossInNonNegative(ops[..|ops| - 1]);
      match ops[|ops| - 1]
      case BeginBlock(_) =>
      case Orders(os) => SumNonNegative(Sales(os));
      case Deposits(ds) => SumNonNegative(Amounts(ds));
      case Withdraws(_) =>
    }
  }

}
