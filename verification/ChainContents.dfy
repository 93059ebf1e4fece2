/**
 * What a built chain stores, in plain terms: each law is stated on the stored maps, the
 * participants and the seeded draws alone.
 */
module ChainContents {
  import opened Uint64
  import opened Aggregates
  import opened Bytes
  import opened Decimal
  import opened Genesis
  import opened ClosedForm
  import opened Lifecycle
  import opened Chain
  import opened Wrappers
  import Hex
  import Seeds

  // ------------------------------------------------------------- transactions

  /** The account that the seed of the first account and a height picks. */
  function Picked(c: MockChain, height: int): Bytes
    requires |c.accounts| > 0
  {
    WrapIsRemainder(height);
    c.accounts[c.o.addrSeed(c.accounts[0], height % MOD) % |c.accounts|]
  }

  /** The seed input of a slot: its height and a multiple of the salt. */
  function SaltedInput(h: U64, i: nat): U64 {
    (h + (i + 1) * 1_000_003) % MOD
  }

  lemma SlotInputIsSalted(h: U64, i: nat)
    ensures Wrap(Seeds.SlotInput(h, i)) == SaltedInput(h, i)
  {
    WrapIsRemainder(h + (i + 1) * 1_000_003);
  }

  lemma StoredTx(c: MockChain, n: nat, h: U64, i: nat)
    requires c.Built(c.Maps(), n) && 1 <= h <= n && h in c.txs && i < |c.txs[h]|
    ensures |c.accounts| > 0 && |c.validators| >= 2 && |c.txs[h]| == c.o.txCount(h)
    ensures c.txs[h][i] == c.TxAt(h, i, c.EarlyCert(h))
  {
    assert c.HeightBuilt(c.Maps(), h);
  }

  lemma StoredEvent(c: MockChain, n: nat, h: U64, i: nat)
    requires c.Built(c.Maps(), n) && 1 <= h <= n && h in c.events && i < |c.events[h]|
    ensures |c.accounts| > 0 && |c.events[h]| == c.o.eventCount(h)
    ensures c.events[h][i] == c.EventAt(h, i)
  {
    assert c.HeightBuilt(c.Maps(), h);
  }

  /** The i-th transaction of a height is sent by the account picked at height h + i, and
      hashed from the chain, the height and the slot. */
  lemma TransactionInPlain(c: MockChain, n: nat, h: U64, i: nat)
    requires c.Built(c.Maps(), n) && 1 <= h <= n && h in c.txs && i < |c.txs[h]|
    ensures |c.accounts| > 0 && |c.txs[h]| == c.o.txCount(h)
    ensures var t := c.txs[h][i];
            && t.sender == Picked(c, h + i) && t.height == h && t.index == i
            && t.txHash == Hex.EncodeToString(c.o.sha("tx" + Digits(c.chainId) + Digits(h) + Digits(i)))
            && t.transaction.createdHeight == h && t.transaction.time == PlainTime(h)
            && t.transaction.fee == 10 && t.transaction.networkId == 1 && t.transaction.chainId == c.chainId
  {
    StoredTx(c, n, h, i);
    WrapIsRemainder(h + i);
    TimeInPlain(h);
  }

  /** Six seconds a block from the start of 2024, in microseconds. */
  function PlainTime(h: U64): U64 {
    (1_704_067_200_000_000 + h * 6_000_000) % MOD
  }

  lemma TimeInPlain(h: U64)
    ensures BlockTime(h) == PlainTime(h)
  {
    WrapIsRemainder(1_704_067_200_000_000 + h * 6_000_000);
  }

  /** What the label drawn for a slot makes of the sender, the recipient and the height. */
  ghost predicate MessageFits(c: MockChain, kind: string, m: Message, sender: Bytes, recipient: Bytes, h: U64) {
    && (kind == "dexLimitOrder" ==> m == DexLimitOrder(c.chainId, 2500, 200, sender))
    && (kind == "editStake" ==> m == EditStake(sender, (10_000 + h) % MOD, [c.chainId], "127.0.0.1:26650", sender,
                                               false, sender))
    && (kind == "certResults" ==> m.CertificateResults? && m.qc.view.height == h && m.qc.dexBatch == None)
    && (kind == "dexLiqDeposit" ==> m == DexLiquidityDeposit(c.chainId, 4000, sender))
    && (kind == "dexLiqWithdraw" ==> m == DexLiquidityWithdraw(c.chainId, 10, sender))
    && (kind == "stake" ==> m == Stake(c.o.stakeKey(sender, h), 10_000, [c.chainId], "127.0.0.1:26650", sender,
                                       false, false, sender))
    && (kind == "unstake" ==> m == Unstake(sender))
    && (m.Send? <==> kind !in ["dexLimitOrder", "editStake", "certResults", "dexLiqDeposit", "dexLiqWithdraw",
                               "stake", "unstake"])
    && (m.Send? ==> m == Send(sender, recipient, (1000 + h) % MOD))
  }

  /** The message of the i-th transaction goes by the label of its slot, from the account
      picked at height h + i to the one picked at h + i + 1. */
  lemma MessageInPlain(c: MockChain, n: nat, h: U64, i: nat)
    requires c.Built(c.Maps(), n) && 1 <= h <= n && h in c.txs && i < |c.txs[h]|
    ensures |c.accounts| > 0
    ensures MessageFits(c, c.o.txLabel(SaltedInput(h, i)), c.txs[h][i].transaction.message,
                        Picked(c, h + i), Picked(c, h + i + 1), h)
  {
    StoredTx(c, n, h, i);
    BuiltMessage(c, h, i);
  }

  lemma BuiltMessage(c: MockChain, h: U64, i: nat)
    requires |c.accounts| > 0 && |c.validators| >= 2
    ensures MessageFits(c, c.o.txLabel(SaltedInput(h, i)), c.TxAt(h, i, c.EarlyCert(h)).transaction.message,
                        Picked(c, h + i), Picked(c, h + i + 1), h)
  {
    SlotInputIsSalted(h, i);
    WrapIsRemainder(h + i);
    WrapIsRemainder(h + i + 1);
    WrapIsRemainder(10_000 + h);
    WrapIsRemainder(1000 + h);
  }

  /** Whoever receives a send is the sender of the next slot. */
  lemma RecipientSendsNext(c: MockChain, n: nat, h: U64, i: nat)
    requires c.Built(c.Maps(), n) && 1 <= h <= n && h in c.txs && i + 1 < |c.txs[h]|
    requires c.txs[h][i].transaction.message.Send?
    ensures var m := c.txs[h][i].transaction.message;
            m.fromAddress == c.txs[h][i].sender && m.toAddress == c.txs[h][i + 1].sender
  {
    SenderInPlain(c, n, h, i);
    SenderInPlain(c, n, h, i + 1);
    MessageInPlain(c, n, h, i);
    SendFits(c, c.o.txLabel(SaltedInput(h, i)), c.txs[h][i].transaction.message, Picked(c, h + i),
             Picked(c, h + i + 1), h);
  }

  lemma SenderInPlain(c: MockChain, n: nat, h: U64, i: nat)
    requires c.Built(c.Maps(), n) && 1 <= h <= n && h in c.txs && i < |c.txs[h]|
    ensures |c.accounts| > 0 && c.txs[h][i].sender == Picked(c, h + i)
  {
    TransactionInPlain(c, n, h, i);
  }

  lemma SendFits(c: MockChain, kind: string, m: Message, sender: Bytes, recipient: Bytes, h: U64)
    requires MessageFits(c, kind, m, sender, recipient, h) && m.Send?
    ensures m.fromAddress == sender && m.toAddress == recipient
  {}

  // ------------------------------------------------------------------- events

  /** The i-th event of a height is about the account picked at height h + i, and goes by
      the label of its slot. */
  lemma EventInPlain(c: MockChain, n: nat, h: U64, i: nat)
    requires c.Built(c.Maps(), n) && 1 <= h <= n && h in c.events && h in c.blocks && i < |c.events[h]|
    ensures |c.accounts| > 0 && |c.events[h]| == c.o.eventCount(h)
    ensures var e, kind := c.events[h][i], c.o.eventLabel(SaltedInput(h, i));
            && e.address == Picked(c, h + i) && e.height == e.blockHeight == h && e.chainId == c.chainId
            && e.blockHash == c.blocks[h].header.hash && e.reference == ""
            && e.msg == if kind == "dexSwap" then Swap(1000, 900, true, true)
                        else if kind == "dexLiquidityDeposit" then LiquidityDeposit(500, 50) else Reward(5)
  {
    StoredEvent(c, n, h, i);
    assert c.HeightBuilt(c.Maps(), h);
    SlotInputIsSalted(h, i);
    WrapIsRemainder(h + i);
  }

  /** A transaction and an event of the same slot are about the same account. */
  lemma SenderOfSlot(c: MockChain, n: nat, h: U64, i: nat)
    requires c.Built(c.Maps(), n) && 1 <= h <= n && h in c.txs && h in c.events && h in c.blocks
    requires i < |c.txs[h]| && i < |c.events[h]|
    ensures c.txs[h][i].sender == c.events[h][i].address
  {
    TransactionInPlain(c, n, h, i);
    EventInPlain(c, n, h, i);
  }

  // ------------------------------------------------------------------- blocks

  /** The hash of a block, from its height. */
  lemma HashInPlain(c: MockChain, h: U64)
    ensures BlockHash(c.o.sha, h) == if h == 0 then seq(32, _ => 0) else c.o.sha("block" + Digits(h))
  {}

  /** The header and meta data of a stored block. */
  lemma BlockInPlain(c: MockChain, n: nat, h: U64)
    requires c.Built(c.Maps(), n) && 1 <= h <= n
    ensures h in c.blocks && h in c.txs && h in c.events && |c.validators| >= 2
    ensures c.blocks[h].transactions == c.txs[h] && c.blocks[h].events == c.events[h]
    ensures HeaderFits(c, c.blocks[h].header, h)
    ensures var b := c.blocks[h];
            && b.meta.took == 2 + h % 3
            && match c.o.blockSize(b.header, b.transactions, b.events)
               case Some(size) => b.meta.size == size case None => b.meta.size == 1024
  {
    assert c.HeightBuilt(c.Maps(), h);
    HeaderInPlain(c, h, c.o.txCount(h), Wrap(TxsUpTo(c.o, h)));
  }

  ghost predicate HeaderFits(c: MockChain, header: BlockHeader, h: U64)
    requires |c.validators| >= 2
  {
    && header.height == h && header.networkId == 1 && header.time == PlainTime(h)
    && header.hash == c.o.sha("block" + Digits(h))
    && header.totalVdfIterations == h * 100 % MOD
    && header.stateRoot == c.o.sha("state" + Digits(h))
    && header.transactionRoot == c.o.sha("txroot" + Digits(h))
    && header.validatorRoot == c.o.sha("valroot" + Digits(h))
    && header.nextValidatorRoot == c.o.sha("nextval" + Digits(h))
    && header.proposer == c.validators[0].address
  }

  lemma HeaderInPlain(c: MockChain, h: U64, numTxs: nat, totalTxs: U64)
    requires |c.validators| >= 2 && 1 <= h
    ensures HeaderFits(c, c.HeaderOf(h, numTxs, totalTxs), h)
  {
    TimeInPlain(h);
    WrapIsRemainder(h * 100);
  }

  // ------------------------------------------------- certificates and batches

  /** The stored certificate of a height. */
  lemma CertificateInPlain(c: MockChain, n: nat, h: U64)
    requires c.Built(c.Maps(), n) && 1 <= h <= n
    ensures h in c.certs && |c.validators| >= 2 && CertificateFits(c, c.certs[h], h)
  {
    assert c.HeightBuilt(c.Maps(), h);
    WrapIsRemainder(10 + h);
  }

  ghost predicate CertificateFits(c: MockChain, cert: Certificate, h: U64)
    requires |c.validators| >= 2 && 1 <= h
  {
    var hash := c.o.sha("block" + Digits(h));
    && cert.view == View(1, c.chainId, h, h, 1, PrecommitVote)
    && cert.rewardRecipients == [PaymentPercents(c.validators[0].address, 60, c.chainId),
                                 PaymentPercents(c.validators[1].address, 40, c.chainId)]
    && cert.numberOfSamples == (10 + h) % MOD
    && cert.checkpoint == Checkpoint(h, hash) && cert.block == cert.blockHash == hash
    && cert.slashRecipients
       == (if h % 30 == 0 then [DoubleSigner(c.validators[1].address, [h - 1, h])] else [])
    && cert.resultsHash == c.o.sha("result-hash" + Digits(h))
    && cert.proposerKey == c.validators[0].publicKey
    && cert.signature == AggregateSignature(c.o.sha("agg-sig" + Digits(h)), [0xff, 0x00])
  }

  /** The batch every height serves, locked at genesis, and the batch served as the next. */
  lemma BatchesInPlain(c: MockChain, n: nat, h: U64)
    requires c.Built(c.Maps(), n) && 1 <= h <= n
    ensures h in c.dexBatches && BatchFits(c, c.dexBatches[h], 0, "false")
    ensures h in c.nextDexBatches && BatchFits(c, c.nextDexBatches[h], h, "true")
    ensures !c.dexBatches[h].livenessFallback && c.nextDexBatches[h].livenessFallback
  {
    assert c.HeightBuilt(c.Maps(), h);
    BatchInPlain(c, 0, false);
    BatchInPlain(c, h, true);
  }

  ghost predicate BatchFits(c: MockChain, batch: Chain.DexBatch, h: U64, next: string) {
    && batch.committee == c.chainId && batch.lockedHeight == h
    && batch.receiptHash == c.o.sha("receipt" + Digits(h) + next)
    && batch.poolSize == (1_000_000 + h * 1000) % MOD && batch.counterPoolSize == (2_000_000 + h * 500) % MOD
    && batch.totalPoolPoints == (100 + h) % MOD && batch.receipt == h * 10 % MOD
  }

  lemma BatchInPlain(c: MockChain, h: U64, next: bool)
    ensures BatchFits(c, c.GenerateDexBatch(h, next), h, if next then "true" else "false")
    ensures c.GenerateDexBatch(h, next).livenessFallback == next
  {
    WrapIsRemainder(1_000_000 + h * 1_000);
    WrapIsRemainder(2_000_000 + h * 500);
    WrapIsRemainder(100 + h);
    WrapIsRemainder(h * 10);
  }

  // ------------------------------------------------------------------- states

  lemma StoredState(c: MockChain, n: nat, h: U64)
    requires c.Built(c.Maps(), n) && h <= n
    ensures h in c.states && c.states[h] == c.StateOf(h) && |c.validators| >= 2
  {
    if h > 0 { assert c.HeightBuilt(c.Maps(), h); }
  }

  /** A state lists the accounts with their balances at the height and carries the pools,
      books, parameters and committees of the chain. */
  lemma StateInPlain(c: MockChain, n: nat, h: U64)
    requires c.Built(c.Maps(), n) && h <= n
    ensures h in c.states && |c.validators| >= 2
    ensures var s := c.states[h];
            && |s.accounts| == |c.accounts|
            && (forall i :: 0 <= i < |c.accounts| ==>
                  s.accounts[i] == Account(c.accounts[i], Balances(c.o.draws, c.accounts, c.chainId, h)[i]))
            && s.supply.total == TotalSupplyAt(c.o.draws, c.chainId, h)
            && s.supply.delegatedOnly == 0 && s.supply.committeeStaked == s.supply.committeeDelegatedOnly == []
            && s.pools == c.pools && s.orderBooks == c.orderBooks && s.params == c.params
            && s.committees == c.committees && s.retiredCommittees == [42] && s.time == PlainTime(h)
            && s.nonSigners == [NonSigner(c.validators[0].address, h % 3 + 1),
                                NonSigner(c.validators[1].address, h % 2 + 1)]
            && s.doubleSigners
               == (if h > 0 && h % 30 == 0 then [DoubleSigner(c.validators[1].address, [h - 1, h])] else [])
  {
    StoredState(c, n, h);
    TimeInPlain(h);
  }

  /** A state lists the validators with the stakes drawn for the height, and with the
      heights of those that have unstaked by then. */
  lemma ValidatorInPlain(c: MockChain, n: nat, h: U64, i: nat)
    requires c.Built(c.Maps(), n) && h <= n && i < |c.validators|
    ensures h in c.states && |c.states[h].validators| == |c.validators|
    ensures var v, shown := c.validators[i], c.states[h].validators[i];
            var leaves := if c.o.fate.roll(v.address) < 0.9 then 1_000_000_000 else 100 + c.o.fate.spread(v.address);
            shown == v.(stakedAmount := c.o.stakeAt(v.address, h), maxPausedHeight := 0,
                        unstakingHeight := if h < leaves then 0 else leaves)
  {
    StoredState(c, n, h);
    SmallWord(Delay(c.o.fate, c.validators[i].address));
  }

  function ListedStakes(s: GenesisState): seq<int> {
    seq(|s.validators|, i requires 0 <= i < |s.validators| => s.validators[i].stakedAmount)
  }

  /** The staked supply of a state is the sum of the stakes it lists. */
  lemma StakesAddUp(c: MockChain, n: nat, h: U64)
    requires c.Built(c.Maps(), n) && h <= n
    ensures h in c.states && c.states[h].supply.staked == Sum(ListedStakes(c.states[h])) % MOD
  {
    StoredState(c, n, h);
    assert ListedStakes(c.states[h]) == c.StakesAt(h);
    WrapIsRemainder(Sum(c.StakesAt(h)));
  }

}
