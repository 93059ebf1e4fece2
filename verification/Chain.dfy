/** The chain builder: seven maps filled height by height, kept consistent. */
module Chain {
  import opened Uint64
  import opened Aggregates
  import opened Bytes
  import opened Genesis
  import opened ClosedForm
  import opened Lifecycle
  import opened Decimal
  import opened Seeds
  import opened Wrappers
  import Hex

  /** Everything a chain draws from its seeds, and the hash function. */
  datatype Oracle = Oracle(
    sha: string -> Bytes,                // SHA-256 of a preimage
    draws: Draws,                        // balances
    fate: Fate,                          // unstaking heights
    stakeAt: (Bytes, U64) -> U64,        // stake of a validator at a height
    addrSeed: (Bytes, U64) -> U64,       // seed of an address and a height
    txCount: U64 -> nat,                 // transactions of a height
    txLabel: U64 -> string,              // label drawn from a slot's seed input
    eventCount: U64 -> nat,
    eventLabel: U64 -> string,
    stakeKey: (Bytes, U64) -> Bytes,     // key made up for a stake message
    blockSize: (BlockHeader, seq<TxResult>, seq<Event>) -> Option<U64>) // serialized size, if it serializes

  datatype DexBatch = DexBatch(
    committee: U64, receiptHash: Bytes, poolSize: U64, counterPoolSize: U64, totalPoolPoints: U64, receipt: U64,
    lockedHeight: U64, livenessFallback: bool)

  datatype AggregateSignature = AggregateSignature(signature: Bytes, bitmap: Bytes)

  datatype Certificate = Certificate(
    view: View, rewardRecipients: seq<PaymentPercents>, numberOfSamples: U64, checkpoint: Checkpoint,
    dexBatch: Option<DexBatch>, slashRecipients: seq<DoubleSigner>, resultsHash: Bytes, block: Bytes,
    blockHash: Bytes, proposerKey: Bytes, signature: AggregateSignature)

  datatype Message =
    | Send(fromAddress: Bytes, toAddress: Bytes, amount: U64)
    | DexLimitOrder(chainId: U64, amountForSale: U64, requestedAmount: U64, address: Bytes)
    | EditStake(address: Bytes, amount: U64, committees: seq<U64>, netAddress: string, outputAddress: Bytes,
                compound: bool, signer: Bytes)
    | CertificateResults(qc: Certificate)
    | DexLiquidityDeposit(chainId: U64, amount: U64, address: Bytes)
    | DexLiquidityWithdraw(chainId: U64, percent: U64, address: Bytes)
    | Stake(publicKey: Bytes, amount: U64, committees: seq<U64>, netAddress: string, outputAddress: Bytes,
            delegate: bool, compound: bool, signer: Bytes)
    | Unstake(address: Bytes)

  /** A transaction, whose message type is that of its message. */
  datatype Transaction = Transaction(
    message: Message, createdHeight: U64, time: U64, fee: U64, networkId: U64, chainId: U64)

  datatype TxResult = TxResult(sender: Bytes, height: U64, index: nat, transaction: Transaction, txHash: string)

  datatype BlockHeader = BlockHeader(
    height: U64, hash: Bytes, networkId: U64, time: U64, numTxs: U64, totalTxs: U64, totalVdfIterations: U64,
    lastBlockHash: Bytes, stateRoot: Bytes, transactionRoot: Bytes, validatorRoot: Bytes, nextValidatorRoot: Bytes,
    proposer: Bytes)

  datatype BlockMeta = BlockMeta(size: U64, took: U64)

  datatype BlockResult = BlockResult(
    header: BlockHeader, transactions: seq<TxResult>, events: seq<Event>, meta: BlockMeta)

  const NET_ADDRESS := "127.0.0.1:26650"

  /** Transactions drawn for all heights up to h. */
  function TxsUpTo(o: Oracle, h: nat): nat
    requires h < MOD
  {
    if h == 0 then 0 else TxsUpTo(o, h - 1) + o.txCount(h)
  }

  /** The contents of the chain's maps. */
  datatype Tables = Tables(
    lockedBatch: DexBatch,
    blocks: map<U64, BlockResult>,
    certs: map<U64, Certificate>,
    txs: map<U64, seq<TxResult>>,
    events: map<U64, seq<Event>>,
    dexBatches: map<U64, DexBatch>,
    nextDexBatches: map<U64, DexBatch>,
    states: map<U64, GenesisState>)

  class MockChain {
    const chainId: U64
    const o: Oracle
    const accounts: seq<Bytes>
    const validators: seq<Validator>
    const pools: seq<Pool>
    const orderBooks: seq<OrderBook>
    const params: Params
    const committees: Committees
    const subsidizedCommittees: seq<U64>
    const retiredCommittees: seq<U64>
    var lockedBatch: DexBatch
    var blocks: map<U64, BlockResult>
    var certs: map<U64, Certificate>
    var txs: map<U64, seq<TxResult>>
    var events: map<U64, seq<Event>>
    var dexBatches: map<U64, DexBatch>
    var nextDexBatches: map<U64, DexBatch>
    var states: map<U64, GenesisState>

    /** What building demands of the generated participants. */
    ghost predicate Staffed() {
      |accounts| > 0 && |validators| >= 2 && Positive(o.draws) && WellDrawn(o.fate)
    }

    function GenerateDexBatch(height: U64, next: bool): DexBatch {
      DexBatch(chainId, o.sha("receipt" + Digits(height) + if next then "true" else "false"),
               Wrap(1_000_000 + height * 1_000), Wrap(2_000_000 + height * 500), Wrap(100 + height),
               Wrap(height * 10), height, next)
    }

    /** The double signers recorded in the state of a height, none without a state. */
    function DoubleSigners(height: U64): seq<DoubleSigner>
      reads this`states
    {
      if height in states then states[height].doubleSigners else []
    }

    /** A certificate for the height, from whatever the maps hold at the time. */
    function BuildCertificateForTx(height: U64): Certificate
      requires |validators| >= 2
      reads this`blocks, this`dexBatches, this`states
    {
      var bh := if height in blocks then blocks[height].header.hash else BlockHash(o.sha, height);
      var batch := if height in dexBatches then Some(dexBatches[height]) else None;
      CertificateWith(height, bh, batch, DoubleSigners(height))
    }

    function CertificateWith(height: U64, bh: Bytes, batch: Option<DexBatch>, slashed: seq<DoubleSigner>): Certificate
      requires |validators| >= 2
    {
      Certificate(ViewOf(chainId, height),
                  [PaymentPercents(validators[0].address, 60, chainId),
                   PaymentPercents(validators[1].address, 40, chainId)],
                  Wrap(10 + height), Checkpoint(height, bh), batch, slashed, o.sha("result-hash" + Digits(height)),
                  bh, bh, validators[0].publicKey,
                  AggregateSignature(o.sha("agg-sig" + Digits(height)), [0xff, 0x00]))
    }

    function HeaderOf(height: U64, numTxs: nat, totalTxs: U64): BlockHeader
      requires |validators| > 0
    {
      BlockHeader(height, BlockHash(o.sha, height), NETWORK_ID, BlockTime(height), Wrap(numTxs), totalTxs,
                  Wrap(height * 100), BlockHash(o.sha, Wrap(height - 1)), o.sha("state" + Digits(height)),
                  o.sha("txroot" + Digits(height)), o.sha("valroot" + Digits(height)),
                  o.sha("nextval" + Digits(height)), validators[0].address)
    }

    /** A block that does not serialize counts as 1024 bytes. */
    function MetaOf(header: BlockHeader, txs: seq<TxResult>, events: seq<Event>): BlockMeta {
      BlockMeta(match o.blockSize(header, txs, events) case Some(size) => size case None => 1024,
                2 + header.height % 3)
    }

    /** Transactions up to the height, counted on from the block before. */
    function RunningTotal(height: U64, count: nat): U64
      reads this`blocks
    {
      var before := Wrap(height - 1);
      Wrap(count + if before in blocks then blocks[before].header.totalTxs else 0)
    }

    function GenerateBlock(height: U64, txs: seq<TxResult>, events: seq<Event>): BlockResult
      requires |validators| > 0
      reads this`blocks
    {
      var header := HeaderOf(height, |txs|, RunningTotal(height, |txs|));
      BlockResult(header, txs, events, MetaOf(header, txs, events))
    }

    function PickAccount(height: U64): Bytes
      requires |accounts| > 0
    {
      accounts[o.addrSeed(accounts[0], height) % |accounts|]
    }

    /** The message drawn for a label; unknown labels are sends. */
    function BuildTxMsg(kind: string, sender: Bytes, recipient: Bytes, height: U64, qc: Certificate): Message {
      match kind
      case "dexLimitOrder" => DexLimitOrder(chainId, 2_500, 200, sender)
      case "editStake" => EditStake(sender, Wrap(10_000 + height), [chainId], NET_ADDRESS, sender, false, sender)
      case "certResults" => CertificateResults(qc)
      case "dexLiqDeposit" => DexLiquidityDeposit(chainId, 4_000, sender)
      case "dexLiqWithdraw" => DexLiquidityWithdraw(chainId, 10, sender)
      case "stake" =>
        Stake(o.stakeKey(sender, height), 10_000, [chainId], NET_ADDRESS, sender, false, false, sender)
      case "unstake" => Unstake(sender)
      case _ => Send(sender, recipient, Wrap(1_000 + height))
    }

    /** The i-th transaction of a height, when the certificate of its time is qc. */
    function TxAt(height: U64, i: nat, qc: Certificate): TxResult
      requires |accounts| > 0
    {
      var sender, recipient := PickAccount(Wrap(height + i)), PickAccount(Wrap(height + i + 1));
      var message := BuildTxMsg(o.txLabel(Wrap(SlotInput(height, i))), sender, recipient, height, qc);
      TxResult(sender, height, i, Transaction(message, height, BlockTime(height), 10, NETWORK_ID, chainId),
               Hex.EncodeToString(o.sha(TxPreimage(chainId, height, i))))
    }

    /** The message drawn for an event label; unknown labels are rewards. */
    function BuildEventMsg(kind: string): EventMsg {
      match kind
      case "dexSwap" => Swap(1_000, 900, true, true)
      case "dexLiquidityDeposit" => LiquidityDeposit(500, 50)
      case _ => Reward(5)
    }

    function EventAt(height: U64, i: nat): Event
      requires |accounts| > 0
    {
      Event(BuildEventMsg(o.eventLabel(Wrap(SlotInput(height, i)))), height, "", chainId, height,
            BlockHash(o.sha, height), PickAccount(Wrap(height + i)))
    }

    method GenerateClosedFormTxs(height: U64) returns (results: seq<TxResult>)
      requires |accounts| > 0 && |validators| >= 2
      ensures |results| == o.txCount(height)
      ensures forall i :: 0 <= i < |results| ==> results[i] == TxAt(height, i, BuildCertificateForTx(height))
    {
      results := [];
      ghost var expected := BuildCertificateForTx(height);
      for i := 0 to o.txCount(height)
        invariant |results| == i
        invariant forall j :: 0 <= j < i ==> results[j] == TxAt(height, j, expected)
      {
        var kind := o.txLabel(Wrap(SlotInput(height, i)));
        var sender := PickAccount(Wrap(height + i));
        var recipient := PickAccount(Wrap(height + i + 1));
        var txHash := o.sha(TxPreimage(chainId, height, i));
        var message := BuildTxMsg(kind, sender, recipient, height, BuildCertificateForTx(height));
        var tx := Transaction(message, height, BlockTime(height), 10, NETWORK_ID, chainId);
        results := results + [TxResult(sender, height, i, tx, Hex.EncodeToString(txHash))];
      }
    }

    method GenerateClosedFormEvents(height: U64) returns (results: seq<Event>)
      requires |accounts| > 0
      ensures |results| == o.eventCount(height)
      ensures forall i :: 0 <= i < |results| ==> results[i] == EventAt(height, i)
    {
      results := [];
      var bh := BlockHash(o.sha, height);
      for i := 0 to o.eventCount(height)
        invariant |results| == i
        invariant forall j :: 0 <= j < i ==> results[j] == EventAt(height, j)
      {
        var kind := o.eventLabel(Wrap(SlotInput(height, i)));
        var addr := PickAccount(Wrap(height + i));
        results := results + [Event(BuildEventMsg(kind), height, "", chainId, height, bh, addr)];
      }
    }

    // ------------------------------------------------------------ snapshots

    function AccountAt(height: U64, i: nat): Account
      requires i < |accounts|
    {
      Account(accounts[i], Balances(o.draws, accounts, chainId, height)[i])
    }

    function ValidatorAt(height: U64, i: nat): Validator
      requires i < |validators|
    {
      var v := validators[i];
      var unstakingHeight := if StatusAt(o.fate, v.address, 0, height) == Unstaked
                             then UnstakeHeightFor(o.fate, v.address, 0) else 0;
      Validator(v.address, v.publicKey, v.netAddress, o.stakeAt(v.address, height), v.committees, 0,
                unstakingHeight, v.output, v.delegate, v.compound)
    }

    function StakesAt(height: U64): seq<int> {
      seq(|validators|, i requires 0 <= i < |validators| => o.stakeAt(validators[i].address, height))
    }

    function NonSignersAt(height: U64): seq<NonSigner> {
      if |validators| >= 2 then
        [NonSigner(validators[0].address, height % 3 + 1), NonSigner(validators[1].address, height % 2 + 1)]
      else []
    }

    function DoubleSignersAt(height: U64): seq<DoubleSigner> {
      if height > 0 && height % 30 == 0 && |validators| >= 2
      then [DoubleSigner(validators[1].address, [height - 1, height])]
      else []
    }

    function StateOf(height: U64): GenesisState {
      GenesisState(
        BlockTime(height), pools,
        seq(|accounts|, i requires 0 <= i < |accounts| => AccountAt(height, i)),
        seq(|validators|, i requires 0 <= i < |validators| => ValidatorAt(height, i)),
        NonSignersAt(height), DoubleSignersAt(height), orderBooks, params,
        Supply(TotalSupplyAt(o.draws, chainId, height), Wrap(Sum(StakesAt(height))), 0, [], []),
        committees, RETIRED_COMMITTEES)
    }

    method SnapshotStateAt(height: U64) returns (state: GenesisState)
      requires Positive(o.draws)
      ensures state == StateOf(height)
    {
      var balances := SnapshotBalancesAt(o.draws, accounts, chainId, height);
      var accountList := [];
      for i := 0 to |accounts|
        invariant |accountList| == i
        invariant forall j :: 0 <= j < i ==> accountList[j] == AccountAt(height, j)
      {
        accountList := accountList + [Account(accounts[i], balances[i])];
      }
      var validatorList, totalStaked := SnapshotValidators(height);
      assert accountList == StateOf(height).accounts && validatorList == StateOf(height).validators;
      state := GenesisState(BlockTime(height), pools, accountList, validatorList, NonSignersAt(height),
                            DoubleSignersAt(height), orderBooks, params,
                            Supply(TotalSupplyAt(o.draws, chainId, height), totalStaked, 0, [], []),
                            committees, RETIRED_COMMITTEES);
    }

    method SnapshotValidators(height: U64) returns (list: seq<Validator>, totalStaked: U64)
      ensures |list| == |validators| && forall i :: 0 <= i < |list| ==> list[i] == ValidatorAt(height, i)
      ensures totalStaked == Wrap(Sum(StakesAt(height)))
    {
      list, totalStaked := [], 0;
      ghost var stakes := StakesAt(height);
      for i := 0 to |validators|
        invariant |list| == i
        invariant forall j :: 0 <= j < i ==> list[j] == ValidatorAt(height, j)
        invariant totalStaked == Wrap(Sum(stakes[..i]))
      {
        var v := validators[i];
        var status := StatusAt(o.fate, v.address, 0, height);
        var unstakingHeight := 0;
        if status == Unstaked {
          unstakingHeight := UnstakeHeightFor(o.fate, v.address, 0);
        }
        var stake := o.stakeAt(v.address, height);
        assert stakes[..i + 1] == stakes[..i] + [stakes[i]];
        SumSnoc(stakes[..i], stakes[i]);
        WrapAdd(Sum(stakes[..i]), stakes[i]);
        totalStaked := Wrap(totalStaked as int + stake as int);
        list := list + [Validator(v.address, v.publicKey, v.netAddress, stake, v.committees, 0,
                                  unstakingHeight, v.output, v.delegate, v.compound)];
      }
      assert stakes[..|validators|] == stakes;
    }

    // -------------------------------------------------------------- building

    ghost function Maps(): Tables
      reads this
    {
      Tables(lockedBatch, blocks, certs, txs, events, dexBatches, nextDexBatches, states)
    }

    /** The height has an entry in every map. */
    static ghost predicate Present(t: Tables, h: U64) {
      && h in t.blocks && h in t.certs && h in t.txs && h in t.events
      && h in t.dexBatches && h in t.nextDexBatches && h in t.states
    }

    /** A block links to the one before it, counts its transactions and all before
        them, and carries the height's transactions and events. */
    ghost predicate BlockBuilt(block: BlockResult, txs: seq<TxResult>, events: seq<Event>, h: U64)
      requires |validators| >= 2 && 1 <= h
    {
      && block.transactions == txs && block.events == events
      && |txs| == o.txCount(h) && |events| == o.eventCount(h)
      && block.header == HeaderOf(h, o.txCount(h), Wrap(TxsUpTo(o, h)))
      && block.header.lastBlockHash == BlockHash(o.sha, h - 1)
      && block.meta == MetaOf(block.header, txs, events)
      && TxsBuilt(txs, h) && EventsBuilt(events, h)
    }

    /** What the seven maps hold about one height. */
    ghost predicate HeightBuilt(t: Tables, h: U64)
      requires |validators| >= 2 && 1 <= h
    {
      && Present(t, h)
      && BlockBuilt(t.blocks[h], t.txs[h], t.events[h], h)
      && t.dexBatches[h] == t.lockedBatch && t.nextDexBatches[h] == GenerateDexBatch(h, true)
      && t.states[h] == StateOf(h)
      && t.certs[h] == CertificateWith(h, BlockHash(o.sha, h), Some(t.lockedBatch), DoubleSignersAt(h))
    }

    /** The certificate of a height not built yet, as it is found inside transactions. */
    function EarlyCert(h: U64): Certificate
      requires |validators| >= 2
    {
      CertificateWith(h, BlockHash(o.sha, h), None, [])
    }

    ghost predicate TxsBuilt(txs: seq<TxResult>, h: U64)
      requires |validators| >= 2
    {
      |accounts| > 0 && forall i :: 0 <= i < |txs| ==> txs[i] == TxAt(h, i, EarlyCert(h))
    }

    ghost predicate EventsBuilt(events: seq<Event>, h: U64) {
      |accounts| > 0 && forall i :: 0 <= i < |events| ==> events[i] == EventAt(h, i)
    }

    static ghost function Heights(n: nat): set<U64> {
      set h: U64 | 1 <= h <= n && InChain(n, h)
    }

    /** True of the heights whose blocks a chain of n blocks holds. */
    static predicate InChain(n: nat, h: U64) {
      1 <= h <= n
    }

    /** The keys of every map are the heights 1 to n, and 0 too for the states. */
    static ghost predicate KeysUpTo(t: Tables, n: nat) {
      && t.blocks.Keys == Heights(n) && t.certs.Keys == Heights(n) && t.txs.Keys == Heights(n)
      && t.events.Keys == Heights(n) && t.dexBatches.Keys == Heights(n) && t.nextDexBatches.Keys == Heights(n)
      && t.states.Keys == Heights(n) + {0}
    }

    static lemma HeightsGrow(h: U64)
      requires 1 <= h
      ensures Heights(h) == Heights(h - 1) + {h}
    {}

    static lemma {:induction false} HeightsCount(n: nat)
      requires n < MOD
      ensures |Heights(n)| == n
    {
      if n == 0 {
        assert Heights(0) == {};
      } else {
        HeightsCount(n - 1);
        HeightsGrow(n);
      }
    }

    /** Blocks 1 to n and states 0 to n have been built, and nothing else. */
    ghost predicate Built(t: Tables, n: nat) {
      && n < MOD / 2 && Staffed() && KeysUpTo(t, n)
      && t.states[0] == StateOf(0)
      && t.lockedBatch == GenerateDexBatch(0, false)
      && forall h: U64 :: 1 <= h <= n ==> HeightBuilt(t, h)
    }

    /** The maps of t' are those of t with the height's entries added. */
    static ghost predicate Adds(t: Tables, h: U64, t': Tables) {
      && Present(t', h)
      && t'.lockedBatch == t.lockedBatch
      && t'.blocks == t.blocks[h := t'.blocks[h]]
      && t'.certs == t.certs[h := t'.certs[h]]
      && t'.txs == t.txs[h := t'.txs[h]]
      && t'.events == t.events[h := t'.events[h]]
      && t'.dexBatches == t.dexBatches[h := t'.dexBatches[h]]
      && t'.nextDexBatches == t.nextDexBatches[h := t'.nextDexBatches[h]]
      && t'.states == t.states[h := t'.states[h]]
    }

    lemma ExtensionIsBuilt(t: Tables, h: U64, t': Tables)
      requires 1 <= h < MOD / 2 && Built(t, h - 1) && Adds(t, h, t') && HeightBuilt(t', h)
      ensures Built(t', h)
    {
      KeysExtend(t, h, t');
      forall k: U64 | 1 <= k <= h ensures HeightBuilt(t', k) {
        if k < h { EarlierHeightKept(t, h, t', k); }
      }
    }

    static lemma KeysExtend(t: Tables, h: U64, t': Tables)
      requires 1 <= h && KeysUpTo(t, h - 1) && Adds(t, h, t')
      ensures KeysUpTo(t', h)
    {
      KeyAdded(t.blocks, t'.blocks, h);
      KeyAdded(t.certs, t'.certs, h);
      KeyAdded(t.txs, t'.txs, h);
      KeyAdded(t.events, t'.events, h);
      KeyAdded(t.dexBatches, t'.dexBatches, h);
      KeyAdded(t.nextDexBatches, t'.nextDexBatches, h);
      HeightsGrow(h);
      assert t'.states.Keys == t.states.Keys + {h};
    }

    static lemma KeyAdded<V>(m: map<U64, V>, m': map<U64, V>, h: U64)
      requires 1 <= h && m.Keys == Heights(h - 1) && h in m' && m' == m[h := m'[h]]
      ensures m'.Keys == Heights(h)
    {
      HeightsGrow(h);
    }

    lemma EarlierHeightKept(t: Tables, h: U64, t': Tables, k: U64)
      requires 1 <= k < h && Built(t, h - 1) && Adds(t, h, t')
      ensures HeightBuilt(t', k)
    {
      assert HeightBuilt(t, k);
    }

    /** Total transactions carry over from the block before. */
    lemma TotalCarries(t: Tables, h: U64, count: nat)
      requires |validators| >= 2 && 1 <= h && count == o.txCount(h)
      requires h - 1 in t.blocks <==> h > 1
      requires h > 1 ==> HeightBuilt(t, h - 1)
      ensures Wrap(h - 1) == h - 1
      ensures Wrap(count + if h - 1 in t.blocks then t.blocks[h - 1].header.totalTxs else 0) == Wrap(TxsUpTo(o, h))
    {
      SmallWord(h - 1);
      if h > 1 {
        WrapAdd(TxsUpTo(o, h - 1), count);
      }
    }

    constructor (numBlocks: int, chainId: U64, o: Oracle, accounts: seq<Bytes>, validators: seq<Validator>,
                 pools: seq<Pool>, orderBooks: seq<OrderBook>, params: Params, committees: Committees)
      requires |accounts| > 0 && |validators| >= 2 && Positive(o.draws) && WellDrawn(o.fate)
      requires numBlocks < MOD / 2
      ensures this.chainId == chainId && this.o == o && this.accounts == accounts && this.validators == validators
      ensures this.pools == pools && this.orderBooks == orderBooks
      ensures this.params == params && this.committees == committees
      ensures subsidizedCommittees == [chainId, Wrap(chainId + 1)] && retiredCommittees == RETIRED_COMMITTEES
      ensures Built(Maps(), if numBlocks < 0 then 0 else numBlocks)
    {
      this.chainId, this.o, this.accounts, this.validators := chainId, o, accounts, validators;
      this.pools, this.orderBooks, this.params, this.committees := pools, orderBooks, params, committees;
      subsidizedCommittees, retiredCommittees := [chainId, Wrap(chainId + 1)], RETIRED_COMMITTEES;
      blocks, certs, txs, events := map[], map[], map[], map[];
      dexBatches, nextDexBatches, states := map[], map[], map[];
      new;
      BuildGenesis();
      BuildBlocks(if numBlocks < 0 then 0 else numBlocks);
    }

    /** The building loop. */
    method BuildBlocks(n: nat)
      requires n < MOD / 2 && Built(Maps(), 0)
      modifies this
      ensures Built(Maps(), n)
    {
      for h := 1 to n + 1
        invariant Built(Maps(), h - 1)
      {
        BuildHeight(h);
      }
    }

    /** Lock the one batch and record the state before the first block. */
    method BuildGenesis()
      requires Staffed()
      requires blocks == map[] && certs == map[] && txs == map[] && events == map[]
      requires dexBatches == map[] && nextDexBatches == map[] && states == map[]
      modifies this`lockedBatch, this`states
      ensures Built(Maps(), 0)
    {
      lockedBatch := GenerateDexBatch(0, false);
      var genesis := SnapshotStateAt(0);
      states := states[0 := genesis];
      GenesisBuilt(Maps());
    }

    lemma GenesisBuilt(t: Tables)
      requires Staffed() && t.lockedBatch == GenerateDexBatch(0, false)
      requires t.blocks == map[] && t.certs == map[] && t.txs == map[] && t.events == map[]
      requires t.dexBatches == map[] && t.nextDexBatches == map[] && t.states == map[0 := StateOf(0)]
      ensures Built(t, 0)
    {
      assert Heights(0) == {};
    }

    /** One turn of the building loop. */
    method BuildHeight(height: U64)
      requires 1 <= height < MOD / 2 && Built(Maps(), height - 1)
      modifies this
      ensures Built(Maps(), height)
    {
      ghost var t := Maps();
      TotalCarries(t, height, o.txCount(height));
      FillHeight(height);
      ExtensionIsBuilt(t, height, Maps());
    }

    method FillHeight(height: U64)
      requires 1 <= height && Built(Maps(), height - 1)
      modifies this
      ensures Adds(old(Maps()), height, Maps()) && HeightBuilt(Maps(), height)
    {
      var txResults, eventList, block := MakeBlock(height);
      ghost var t := Maps();
      AddBlock(height, txResults, eventList, block);
      AddState(height);
      Assembled(t, Maps(), height, txResults, eventList, block);
    }

    lemma Assembled(t: Tables, t': Tables, h: U64, txResults: seq<TxResult>, eventList: seq<Event>, block: BlockResult)
      requires |validators| >= 2 && 1 <= h && BlockBuilt(block, txResults, eventList, h)
      requires t'.lockedBatch == t.lockedBatch && t'.txs == t.txs[h := txResults]
      requires t'.events == t.events[h := eventList] && t'.blocks == t.blocks[h := block]
      requires t'.dexBatches == t.dexBatches[h := t.lockedBatch]
      requires t'.nextDexBatches == t.nextDexBatches[h := GenerateDexBatch(h, true)]
      requires t'.states == t.states[h := StateOf(h)]
      requires var cert := CertificateWith(h, BlockHash(o.sha, h), Some(t.lockedBatch), DoubleSignersAt(h));
               t'.certs == t.certs[h := cert]
      ensures Adds(t, h, t') && HeightBuilt(t', h)
    {}

    /** Generate the height's transactions and events, and the block over them. */
    method MakeBlock(height: U64) returns (txResults: seq<TxResult>, eventList: seq<Event>, block: BlockResult)
      requires 1 <= height && Built(Maps(), height - 1)
      ensures BlockBuilt(block, txResults, eventList, height)
    {
      EarlyCertificate(height);
      txResults := GenerateClosedFormTxs(height);
      eventList := GenerateClosedFormEvents(height);
      block := GenerateBlock(height, txResults, eventList);
      BlockContinues(height, txResults, eventList);
    }

    lemma BlockContinues(height: U64, txResults: seq<TxResult>, eventList: seq<Event>)
      requires 1 <= height && Built(Maps(), height - 1)
      requires |txResults| == o.txCount(height) && |eventList| == o.eventCount(height)
      requires TxsBuilt(txResults, height) && EventsBuilt(eventList, height)
      ensures BlockBuilt(GenerateBlock(height, txResults, eventList), txResults, eventList, height)
    {
      CountContinues(height);
      LinkOfHeader(height, |txResults|, Wrap(TxsUpTo(o, height)));
    }

    lemma CountContinues(height: U64)
      requires 1 <= height && Built(Maps(), height - 1)
      ensures RunningTotal(height, o.txCount(height)) == Wrap(TxsUpTo(o, height))
    {
      TotalCarries(Maps(), height, o.txCount(height));
    }

    lemma LinkOfHeader(height: U64, numTxs: nat, totalTxs: U64)
      requires 1 <= height && |validators| > 0
      ensures HeaderOf(height, numTxs, totalTxs).lastBlockHash == BlockHash(o.sha, height - 1)
    {
      SmallWord(height - 1);
    }

    /** Before a height is built its certificate has no batch and slashes nobody. */
    lemma EarlyCertificate(height: U64)
      requires 1 <= height && Built(Maps(), height - 1)
      ensures BuildCertificateForTx(height) == EarlyCert(height)
    {
      assert height !in blocks && height !in dexBatches && height !in states;
    }

    method AddBlock(height: U64, txResults: seq<TxResult>, eventList: seq<Event>, block: BlockResult)
      modifies this`txs, this`events, this`blocks
      ensures var t := old(Maps());
              Maps() == t.(txs := t.txs[height := txResults], events := t.events[height := eventList],
                           blocks := t.blocks[height := block])
    {
      txs := txs[height := txResults];
      events := events[height := eventList];
      blocks := blocks[height := block];
    }

    /** Record the height's batches and state, and the certificate over all of them. */
    method AddState(height: U64)
      requires |validators| >= 2 && Positive(o.draws)
      requires height in blocks && blocks[height].header.hash == BlockHash(o.sha, height)
      modifies this`dexBatches, this`nextDexBatches, this`states, this`certs
      ensures var t := old(Maps());
              var hash := BlockHash(o.sha, height);
              var cert := CertificateWith(height, hash, Some(t.lockedBatch), DoubleSignersAt(height));
              Maps() == t.(dexBatches := t.dexBatches[height := t.lockedBatch],
                           nextDexBatches := t.nextDexBatches[height := GenerateDexBatch(height, true)],
                           states := t.states[height := StateOf(height)],
                           certs := t.certs[height := cert])
    {
      dexBatches := dexBatches[height := lockedBatch];
      nextDexBatches := nextDexBatches[height := GenerateDexBatch(height, true)];
      var state := SnapshotStateAt(height);
      states := states[height := state];
      LateCertificate(height);
      certs := certs[height := BuildCertificateForTx(height)];
    }

    /** Once block, batch and state of a height are there its certificate has them all. */
    lemma LateCertificate(height: U64)
      requires |validators| >= 2
      requires height in blocks && blocks[height].header.hash == BlockHash(o.sha, height)
      requires height in dexBatches && dexBatches[height] == lockedBatch
      requires height in states && states[height].doubleSigners == DoubleSignersAt(height)
      ensures BuildCertificateForTx(height)
           == CertificateWith(height, BlockHash(o.sha, height), Some(lockedBatch), DoubleSignersAt(height))
    {}

    function LatestHeight(): U64
      requires |blocks| < MOD
      reads this`blocks
    {
      |blocks|
    }
  }

}
