/** What holds of every built chain, whatever was drawn. */
module ChainLaws {
  import opened Uint64
  import opened Aggregates
  import opened Reals
  import opened Genesis
  import opened ClosedForm
  import opened ClosedFormLaws
  import opened Lifecycle
  import opened Chain
  import opened Wrappers

  /** The blocks are exactly those of heights 1 to n, the states those and genesis. */
  lemma BlocksCoverHeights(c: MockChain, n: nat, h: U64)
    requires c.Built(c.Maps(), n)
    ensures h in c.blocks <==> 1 <= h <= n
    ensures h in c.states <==> h <= n
  {}

  /** The latest height is the number of blocks built. */
  lemma LatestIsLast(c: MockChain, n: nat)
    requires c.Built(c.Maps(), n)
    ensures |c.blocks| < MOD && c.LatestHeight() == n
  {
    MockChain.HeightsCount(n);
    assert c.blocks.Keys == MockChain.Heights(n);
    assert |c.blocks| == |c.blocks.Keys|;
  }

  /** Every block names the hash of the block before it; the first one 32 zero bytes. */
  lemma HashLinks(c: MockChain, n: nat, h: U64)
    requires c.Built(c.Maps(), n) && 1 <= h <= n
    ensures h in c.blocks
    ensures h > 1 ==> h - 1 in c.blocks && c.blocks[h].header.lastBlockHash == c.blocks[h - 1].header.hash
    ensures h == 1 ==> c.blocks[h].header.lastBlockHash == seq(32, _ => 0)
  {
    assert c.HeightBuilt(c.Maps(), h);
    if h > 1 { assert c.HeightBuilt(c.Maps(), h - 1); }
  }

  function StoredTxs(txs: map<U64, seq<TxResult>>, h: nat): nat
    requires forall k: U64 :: 1 <= k <= h ==> k in txs
    requires h < MOD
  {
    if h == 0 then 0 else StoredTxs(txs, h - 1) + |txs[h]|
  }

  /** Cumulative counts: a block's total is the number of transactions stored at all
      heights up to its own, as a word. */
  lemma TotalsAreCumulative(c: MockChain, n: nat, h: U64)
    requires c.Built(c.Maps(), n) && 1 <= h <= n
    ensures h in c.blocks && h in c.txs && c.blocks[h].transactions == c.txs[h]
    ensures forall k: U64 :: 1 <= k <= h ==> k in c.txs
    ensures c.blocks[h].header.numTxs == Wrap(|c.txs[h]|)
    ensures c.blocks[h].header.totalTxs == Wrap(StoredTxs(c.txs, h))
  {
    assert c.HeightBuilt(c.Maps(), h);
    forall k: U64 | 1 <= k <= h ensures k in c.txs { assert c.HeightBuilt(c.Maps(), k); }
    StoredAsDrawn(c, n, h);
  }

  lemma {:induction false} StoredAsDrawn(c: MockChain, n: nat, h: nat)
    requires c.Built(c.Maps(), n) && h <= n
    requires forall k: U64 :: 1 <= k <= h ==> k in c.txs
    ensures StoredTxs(c.txs, h) == TxsUpTo(c.o, h)
  {
    if h > 0 {
      StoredAsDrawn(c, n, h - 1);
      assert c.HeightBuilt(c.Maps(), h);
    }
  }

  /** A stored certificate carries its height's block hash, dex batch and double signers. */
  lemma CertificatesMatchMaps(c: MockChain, n: nat, h: U64)
    requires c.Built(c.Maps(), n) && 1 <= h <= n
    ensures h in c.certs && h in c.blocks && h in c.dexBatches && h in c.states
    ensures var cert := c.certs[h];
            && cert.view.height == cert.checkpoint.height == h && cert.view.chainId == c.chainId
            && cert.block == cert.blockHash == cert.checkpoint.blockHash == c.blocks[h].header.hash
            && cert.dexBatch == Some(c.dexBatches[h])
            && cert.slashRecipients == c.states[h].doubleSigners
  {
    assert c.HeightBuilt(c.Maps(), h);
  }

  /** A certificate inside a transaction agrees with the stored certificate of its
      height on everything but the dex batch, which it lacks, and the slash
      recipients, which it lacks exactly at the heights divisible by 30. */
  lemma EmbeddedCertificatesAgree(c: MockChain, n: nat, h: U64, i: nat)
    requires c.Built(c.Maps(), n) && 1 <= h <= n
    requires h in c.txs && i < |c.txs[h]| && c.txs[h][i].transaction.message.CertificateResults?
    ensures h in c.certs
    ensures var embedded, stored := c.txs[h][i].transaction.message.qc, c.certs[h];
            && embedded.(dexBatch := stored.dexBatch, slashRecipients := stored.slashRecipients) == stored
            && embedded.dexBatch == None && stored.dexBatch != None
            && (embedded.slashRecipients == stored.slashRecipients <==> h % 30 != 0)
  {
    assert c.HeightBuilt(c.Maps(), h);
  }

  /** The batch a chain serves is locked at genesis and never rotates. */
  lemma BatchNeverRotates(c: MockChain, n: nat, g: U64, h: U64)
    requires c.Built(c.Maps(), n) && 1 <= g <= n && 1 <= h <= n
    ensures g in c.dexBatches && h in c.dexBatches && c.dexBatches[g] == c.dexBatches[h]
    ensures c.dexBatches[g].lockedHeight == 0
  {
    assert c.HeightBuilt(c.Maps(), g) && c.HeightBuilt(c.Maps(), h);
  }

  function AccountAmounts(g: GenesisState): seq<int> {
    seq(|g.accounts|, i requires 0 <= i < |g.accounts| => g.accounts[i].amount)
  }

  /** In every stored state the account balances sum to the reported supply, short of
      it by fewer units than there are accounts, and by none unless the prices of
      the height exceeded the supply. */
  lemma StatesConserveSupply(c: MockChain, n: nat, h: U64)
    requires c.Built(c.Maps(), n) && h <= n
    ensures h in c.states
    ensures var state := c.states[h];
            && 0 <= state.supply.total - Sum(AccountAmounts(state)) < |state.accounts|
            && (!Fallback(c.o.draws, c.accounts, c.chainId, h) ==> state.supply.total == Sum(AccountAmounts(state)))
  {
    if h > 0 { assert c.HeightBuilt(c.Maps(), h); }
    var d := c.o.draws;
    assert AccountAmounts(c.states[h]) == Balances(d, c.accounts, c.chainId, h);
    WithinTolerance(d, c.accounts, c.chainId, h);
    if !Fallback(d, c.accounts, c.chainId, h) { Conservation(d, c.accounts, c.chainId, h); }
  }

  /** The shortfall is nothing exactly if the prices fit the supply, or all the balances
      scaled down to it are whole. */
  lemma StateConservesExactly(c: MockChain, n: nat, h: U64)
    requires c.Built(c.Maps(), n) && h <= n
    ensures h in c.states
    ensures var d := c.o.draws;
            c.states[h].supply.total == Sum(AccountAmounts(c.states[h]))
            <==> (Fallback(d, c.accounts, c.chainId, h) ==> Whole(ScaledDown(d, c.accounts, c.chainId, h)))
  {
    if h > 0 { assert c.HeightBuilt(c.Maps(), h); }
    assert AccountAmounts(c.states[h]) == Balances(c.o.draws, c.accounts, c.chainId, h);
    ConservedExactly(c.o.draws, c.accounts, c.chainId, h);
  }

  /** In every stored state a validator shows an unstaking height exactly when its
      status there is unstaked. */
  lemma StatesShowLifecycle(c: MockChain, n: nat, h: U64, i: nat)
    requires c.Built(c.Maps(), n) && h <= n && h in c.states && i < |c.states[h].validators|
    ensures var v := c.states[h].validators[i];
            v.unstakingHeight != 0 <==> StatusAt(c.o.fate, v.address, 0, h) == Unstaked
  {
    if h > 0 { assert c.HeightBuilt(c.Maps(), h); }
    var v := c.states[h].validators[i];
    SmallWord(Delay(c.o.fate, v.address));
  }

}
