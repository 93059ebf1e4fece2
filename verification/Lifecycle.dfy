/** When a validator unstakes: a height fixed at genesis by its address. */
module Lifecycle {
  import opened Uint64
  import opened Bytes

  datatype Status = Active | Unstaked

  /** The two seeded draws of an address: a fraction, and a spread below 9900. */
  datatype Fate = Fate(roll: Bytes -> real, spread: Bytes -> nat)

  ghost predicate WellDrawn(f: Fate) {
    forall a :: f.spread(a) < 9_900
  }

  function Delay(f: Fate, a: Bytes): nat {
    if f.roll(a) < 0.9 then 1_000_000_000 else 100 + f.spread(a)
  }

  function UnstakeHeightFor(f: Fate, a: Bytes, genesisHeight: U64): U64 {
    Wrap(genesisHeight + Delay(f, a))
  }

  function StatusAt(f: Fate, a: Bytes, genesisHeight: U64, height: U64): Status {
    if height < UnstakeHeightFor(f, a, genesisHeight) then Active else Unstaked
  }

  /** The scheduled height lies after genesis exactly when it does not overflow. */
  lemma ScheduledAfterGenesis(f: Fate, a: Bytes, genesisHeight: U64)
    requires WellDrawn(f)
    ensures UnstakeHeightFor(f, a, genesisHeight) > genesisHeight <==> genesisHeight + Delay(f, a) < MOD
  {
    var at: int := genesisHeight + Delay(f, a);
    if at < MOD {
      SmallWord(at);
    } else {
      WrapOnce(at - MOD);
      SmallWord(at - MOD);
    }
  }

  /** A validator changes status once, at its scheduled height, and for good. */
  lemma UnstakesOnce(f: Fate, a: Bytes, genesisHeight: U64, h1: U64, h2: U64)
    requires h1 <= h2
    ensures StatusAt(f, a, genesisHeight, h1) == Unstaked ==> StatusAt(f, a, genesisHeight, h2) == Unstaked
    ensures StatusAt(f, a, genesisHeight, h1) != StatusAt(f, a, genesisHeight, h2)
       <==> h1 < UnstakeHeightFor(f, a, genesisHeight) <= h2
  {}

  /** How many of the addresses have the status at the height. */
  function Count(f: Fate, addrs: seq<Bytes>, height: U64, status: Status): nat {
    if addrs == [] then 0 else
      Count(f, addrs[..|addrs| - 1], height, status)
      + if StatusAt(f, addrs[|addrs| - 1], 0, height) == status then 1 else 0
  }

  /** How many of the addresses are scheduled to unstake at exactly the height. */
  function Scheduled(f: Fate, addrs: seq<Bytes>, height: U64): nat {
    if addrs == [] then 0 else
      Scheduled(f, addrs[..|addrs| - 1], height)
      + if UnstakeHeightFor(f, addrs[|addrs| - 1], 0) == height then 1 else 0
  }

  /** Every validator is either active or unstaked. */
  lemma {:induction false} CountsAddUp(f: Fate, addrs: seq<Bytes>, height: U64)
    ensures Count(f, addrs, height, Active) + Count(f, addrs, height, Unstaked) == |addrs|
  {
    if addrs != [] { CountsAddUp(f, addrs[..|addrs| - 1], height); }
  }

  /** The active validators of one height are those of the next and those scheduled then. */
  lemma {:induction false} ActiveShrinks(f: Fate, addrs: seq<Bytes>, height: U64)
    requires height + 1 < MOD
    ensures Count(f, addrs, height, Active)
         == Count(f, addrs, height + 1, Active) + Scheduled(f, addrs, height + 1)
  {
    if addrs != [] { ActiveShrinks(f, addrs[..|addrs| - 1], height); }
  }

  /** In plain numbers: nine out of ten validators stay a billion blocks, the others leave
      between 100 and 9,999 blocks after genesis. */
  lemma ScheduleInPlain(f: Fate, a: Bytes, genesisHeight: U64, height: U64)
    requires WellDrawn(f)
    ensures var stays := f.roll(a) < 0.9;
            var delay := if stays then 1_000_000_000 else 100 + f.spread(a);
            && UnstakeHeightFor(f, a, genesisHeight) == (genesisHeight + delay) % MOD
            && (!stays ==> 100 <= delay <= 9_999)
            && (StatusAt(f, a, genesisHeight, height) == Active <==> height < (genesisHeight + delay) % MOD)
  {
    WrapIsRemainder(genesisHeight + Delay(f, a));
  }

}
