/**
 * What a snapshot of the mutable ledger lists, in plain terms: each law is stated on the
 * ledger's maps and the fields of what is listed.
 */
module PlainSnapshots {
  import opened Uint64
  import opened Aggregates
  import opened Bytes
  import opened LedgerRuns
  import opened Genesis
  import opened Sorting
  import opened MockState
  import Hex

  // -------------------------------------------------------------------- pools

  /** A snapshot lists every pool once, by ascending id, with its amount; the liquidity
      pool with its points and total, any other with none. */
  lemma PoolsInPlain(list: seq<Pool>, liquidityId: U64, ps: Pools)
    requires PoolsOf(list, liquidityId, ps)
    ensures forall i, j :: 0 <= i < j < |list| ==> list[i].id < list[j].id
    ensures forall k :: k in ps <==> exists i :: 0 <= i < |list| && list[i].id == k
    ensures forall i :: 0 <= i < |list| ==>
              var p, was := list[i], ps[list[i].id];
              && p.amount == was.amount
              && p.points == (if p.id == liquidityId then was.points else [])
              && p.totalPoolPoints == (if p.id == liquidityId then was.total else 0)
  {
    forall k | k in ps ensures exists i :: 0 <= i < |list| && list[i].id == k {
      assert k in Ids(list);
      var i :| 0 <= i < |list| && Ids(list)[i] == k;
      assert list[i].id == k;
    }
    forall i | 0 <= i < |list|
      ensures var p, was := list[i], ps[list[i].id];
              && p.amount == was.amount
              && p.points == (if p.id == liquidityId then was.points else [])
              && p.totalPoolPoints == (if p.id == liquidityId then was.total else 0)
    {
      assert list[i].Value() == Cloned(liquidityId, list[i].id, ps[list[i].id]);
    }
  }

  // --------------------------------------------------------------- validators

  /** The validator is listed with all its fields, and as not paused. */
  ghost predicate ListedAs(v: Validator, info: ValidatorInfo) {
    && v.address == info.addr && v.publicKey == info.pubKey && v.netAddress == info.netAddress
    && v.stakedAmount == info.stake && v.committees == info.committees && v.maxPausedHeight == 0
    && v.unstakingHeight == info.unstakingAt && v.output == info.outputAddress
    && v.delegate == info.delegate && v.compound == info.compound
  }

  ghost predicate IsListed(v: Validator, m: map<string, ValidatorInfo>) {
    exists k :: k in m && ListedAs(v, m[k])
  }

  lemma MadeIsListed(k: string, info: ValidatorInfo)
    ensures ListedAs(MakeValidator(k, info), info)
  {}

  /** A snapshot lists the validators of the ledger and no others. */
  lemma ValidatorsInPlain(list: seq<Validator>, m: map<string, ValidatorInfo>)
    requires ValidatorsOf(list, m)
    ensures forall k :: k in m ==> exists v :: v in list && ListedAs(v, m[k])
    ensures forall i :: 0 <= i < |list| ==> IsListed(list[i], m)
  {
    forall k | k in m ensures exists v :: v in list && ListedAs(v, m[k]) {
      MadeIsListed(k, m[k]);
      assert MakeValidator(k, m[k]) in list;
    }
    forall i | 0 <= i < |list| ensures IsListed(list[i], m) {
      OneIsListed(list[i], m);
    }
  }

  lemma OneIsListed(v: Validator, m: map<string, ValidatorInfo>)
    requires MadeFrom(v, m, MakeValidator)
    ensures IsListed(v, m)
  {
    var k :| k in m && v == MakeValidator(k, m[k]);
    MadeIsListed(k, m[k]);
  }

  /** In the order of their addresses, byte by byte. */
  lemma ValidatorsByAddress(list: seq<Validator>, i: nat, j: nat)
    requires Sorted(list, ByKey(ValidatorKey)) && i < j < |list|
    ensures Hex.BytesLess(list[i].address, list[j].address)
  {
    assert ByKey(ValidatorKey)(list[i], list[j]);
    OrderedByHex(ValidatorKey(list[i]), ValidatorKey(list[j]), list[i].address, list[j].address);
  }

  lemma OrderedByHex(s: string, t: string, a: Bytes, b: Bytes)
    requires s == Hex.EncodeToString(a) && t == Hex.EncodeToString(b) && Hex.StringLess(s, t)
    ensures Hex.BytesLess(a, b)
  {
    Hex.PreservesOrder(a, b);
  }

  ghost predicate IsInfo(info: ValidatorInfo, m: map<string, ValidatorInfo>) {
    exists k :: k in m && info == m[k]
  }

  /** The ordered validators of the ledger are its validators, by ascending address. */
  lemma InfosInPlain(list: seq<ValidatorInfo>, m: map<string, ValidatorInfo>)
    requires OrderedInfos(list, m)
    ensures |list| == |m|
    ensures forall k :: k in m ==> m[k] in list
    ensures forall i :: 0 <= i < |list| ==> IsInfo(list[i], m)
    ensures forall i, j :: 0 <= i < j < |list| ==> Hex.BytesLess(list[i].addr, list[j].addr)
  {
    forall k | k in m ensures m[k] in list { assert KeepInfo(k, m[k]) in list; }
    forall i | 0 <= i < |list| ensures IsInfo(list[i], m) {
      assert MadeFrom(list[i], m, KeepInfo);
      var k :| k in m && list[i] == KeepInfo(k, m[k]);
      assert list[i] == m[k];
    }
    forall i, j | 0 <= i < j < |list| ensures Hex.BytesLess(list[i].addr, list[j].addr) {
      OrderedByHex(InfoKey(list[i]), InfoKey(list[j]), list[i].addr, list[j].addr);
    }
  }

  // ---------------------------------------------------------- accounts, books

  ghost predicate IsAccount(a: Account, m: map<string, U64>) {
    exists k :: k in m && a.address == Hex.DecodeString(k) && a.amount == m[k]
  }

  /** A snapshot lists the accounts of the ledger and no others, with their amounts. */
  lemma AccountsInPlain(list: seq<Account>, m: map<string, U64>)
    requires AccountsOf(list, m)
    ensures forall k :: k in m ==> Account(Hex.DecodeString(k), m[k]) in list
    ensures forall i :: 0 <= i < |list| ==> IsAccount(list[i], m)
  {
    forall k | k in m ensures Account(Hex.DecodeString(k), m[k]) in list { assert MakeAccount(k, m[k]) in list; }
    forall i | 0 <= i < |list| ensures IsAccount(list[i], m) {
      assert MadeFrom(list[i], m, MakeAccount);
      var k :| k in m && list[i] == MakeAccount(k, m[k]);
      assert list[i].amount == m[k];
    }
  }

  /** A snapshot lists the order books of the ledger and no others, with their orders. */
  lemma BooksInPlain(list: seq<OrderBook>, m: map<U64, seq<SellOrder>>)
    requires BooksOf(list, m)
    ensures forall k :: k in m ==> OrderBook(k, m[k]) in list
    ensures forall i :: 0 <= i < |list| ==> list[i].chainId in m && list[i].orders == m[list[i].chainId]
  {
    forall k | k in m ensures OrderBook(k, m[k]) in list { assert MakeBook(k, m[k]) in list; }
    forall i | 0 <= i < |list| ensures list[i].chainId in m && list[i].orders == m[list[i].chainId] {
      assert MadeFrom(list[i], m, MakeBook);
    }
  }

  // ------------------------------------------------------------------- supply

  /** A column of a sorted list adds up to what it is over the map. */
  lemma ColumnAddsUp<V, T>(list: seq<T>, m: map<string, V>, make: (string, V) -> T, key: T -> string,
                           column: T -> int, values: map<string, int>)
    requires Lists(list, m, make) && Sorted(list, ByKey(key)) && values.Keys == m.Keys
    requires forall k :: k in m ==> key(make(k, m[k])) == k && column(make(k, m[k])) == values[k]
    ensures Sum(Map(column, list)) == MapSum(values)
  {
    var es := seq(|list|, i requires 0 <= i < |list| => (key(list[i]), column(list[i])));
    forall i | 0 <= i < |list| ensures es[i].0 in values && values[es[i].0] == es[i].1 {
      assert MadeFrom(list[i], m, make);
    }
    forall k | k in values ensures (k, values[k]) in es {
      assert make(k, m[k]) in list;
      var i :| 0 <= i < |list| && list[i] == make(k, m[k]);
      assert es[i] == (k, values[k]);
    }
    forall i, j | 0 <= i < j < |es| ensures es[i].0 != es[j].0 {
      assert ByKey(key)(list[i], list[j]);
      Hex.StringLessAsymmetric(key(list[i]), key(list[j]));
    }
    RangeSum(es, values);
    assert Values(es) == Map(column, list);
  }

  /** The amounts and the stakes that a snapshot lists. */
  function ListedAmounts(accounts: seq<Account>): seq<int> {
    Map((a: Account) => a.amount as int, accounts)
  }

  function ListedStakes(validators: seq<Validator>): seq<int> {
    Map((v: Validator) => v.stakedAmount as int, validators)
  }

  lemma AccountsAddUp(list: seq<Account>, m: map<string, U64>)
    requires AccountsOf(list, m) && forall k :: k in m ==> Hex.EncodeToString(Hex.DecodeString(k)) == k
    ensures Sum(ListedAmounts(list)) == MapSum(m)
  {
    ColumnAddsUp(list, m, MakeAccount, AccountKey, (a: Account) => a.amount as int, m);
  }

  lemma StakesAddUp(list: seq<Validator>, m: map<string, ValidatorInfo>)
    requires ValidatorsOf(list, m) && forall k :: k in m ==> Hex.EncodeToString(m[k].addr) == k
    ensures Sum(ListedStakes(list)) == MapSum(Stakes(m))
  {
    ColumnAddsUp(list, m, MakeValidator, ValidatorKey, (v: Validator) => v.stakedAmount as int, Stakes(m));
  }

  /** The supply of accounts that hold a, stakes of v and pools that hold p in all. */
  ghost predicate AddsUp(supply: Supply, a: int, v: int, p: int) {
    && supply.total == (a + v + p) % MOD && supply.staked == v % MOD && supply.delegatedOnly == supply.staked / 4
  }

  lemma SupplyInPlain(accounts: map<string, U64>, validators: map<string, ValidatorInfo>, ps: Pools,
                      list: seq<Pool>, a: int, v: int, p: int)
    requires a == MapSum(accounts) && v == MapSum(Stakes(validators)) && p == PoolSum(ps)
    ensures AddsUp(SupplyOf(accounts, validators, ps, list), a, v, p)
  {
    WrapIsRemainder(v);
    WrapIsRemainder(a + v + p);
  }

  lemma ListsAddUp(s: State, g: GenesisState)
    requires s.Valid() && PoolsOf(g.pools, s.liquidityId, s.PoolValues())
    requires AccountsOf(g.accounts, s.accounts) && ValidatorsOf(g.validators, s.validators)
    ensures Sum(ListedAmounts(g.accounts)) == MapSum(s.accounts)
    ensures Sum(ListedStakes(g.validators)) == MapSum(Stakes(s.validators))
    ensures Sum(AmountsOf(g.pools)) == PoolSum(s.PoolValues())
  {
    AccountsAddUp(g.accounts, s.accounts);
    StakesAddUp(g.validators, s.validators);
    AmountsOfClones(g.pools, s.liquidityId, s.PoolValues());
  }

  /** A snapshot's supply is the sum of what it lists: accounts, stakes and pools. */
  method SnapshotAddsUp(s: State) returns (g: GenesisState)
    requires s.Valid()
    ensures AddsUp(g.supply, Sum(ListedAmounts(g.accounts)), Sum(ListedStakes(g.validators)), Sum(AmountsOf(g.pools)))
    ensures g.supply.committeeStaked == g.supply.committeeDelegatedOnly == g.pools
  {
    g := s.Snapshot();
    ListsAddUp(s, g);
    SupplyInPlain(s.accounts, s.validators, s.PoolValues(), g.pools, Sum(ListedAmounts(g.accounts)),
                  Sum(ListedStakes(g.validators)), Sum(AmountsOf(g.pools)));
  }

  // ------------------------------------------------------------------ loading

  /** Of several elements with one key the last one is loaded. */
  lemma {:induction false} LastIsLoaded<K, V, T>(list: seq<T>, key: T -> K, value: T -> V, i: nat)
    requires i < |list| && forall j :: i < j < |list| ==> key(list[j]) != key(list[i])
    ensures key(list[i]) in Load(list, key, value) && Load(list, key, value)[key(list[i])] == value(list[i])
  {
    var n := |list| - 1;
    if i < n { LastIsLoaded(list[..n], key, value, i); }
  }

}
