/** The numbers and strings the seeds are derived from. */
module Seeds {
  import opened Decimal

  const SALT: int := 1_000_003

  /** Input for the count of a height. */
  function CountInput(height: nat): nat {
    height
  }

  /** Input for the i-th slot of a height. */
  function SlotInput(height: nat, i: nat): nat {
    height + (i + 1) * SALT
  }

  /** One of the draws of a run: the count of a height, or one of its slots. */
  datatype Draw = Count(height: nat) | Slot(height: nat, i: nat)

  function Input(d: Draw): nat {
    match d
    case Count(h) => CountInput(h)
    case Slot(h, i) => SlotInput(h, i)
  }

  predicate InRun(numBlocks: nat, d: Draw) {
    1 <= d.height <= numBlocks
  }

  function Multiple(d: Draw): nat {
    match d
    case Count(_) => 0
    case Slot(_, i) => i + 1
  }

  lemma InputSplits(d: Draw)
    ensures Input(d) == d.height + Multiple(d) * SALT
  {}

  /** Within a run no longer than the salt different draws have different inputs. */
  lemma InputsDistinct(numBlocks: nat, d: Draw, e: Draw)
    requires numBlocks <= SALT && InRun(numBlocks, d) && InRun(numBlocks, e)
    requires Input(d) == Input(e)
    ensures d == e
  {
    InputSplits(d);
    InputSplits(e);
    var k := Multiple(e) - Multiple(d);
    assert d.height - e.height == k * SALT;
    assert -SALT < d.height - e.height < SALT;
    assert k == 0;
  }

  /** The salt separates the draws of a run exactly when the run has at most 1,000,003
      blocks: the next block's count shares its input with the first block's first slot. */
  lemma SaltSeparates(numBlocks: nat)
    ensures (forall d, e :: InRun(numBlocks, d) && InRun(numBlocks, e) && Input(d) == Input(e) ==> d == e)
       <==> numBlocks <= 1_000_003
  {
    if numBlocks <= SALT {
      forall d, e | InRun(numBlocks, d) && InRun(numBlocks, e) && Input(d) == Input(e) ensures d == e {
        InputsDistinct(numBlocks, d, e);
      }
    } else {
      var d, e := Count(1 + SALT), Slot(1, 0);
      assert InRun(numBlocks, d) && InRun(numBlocks, e) && Input(d) == Input(e) && d != e;
    }
  }

  /** What is hashed for a draw's seed: base seed and input, written one after the other. */
  function SeedPreimage(baseSeed: nat, input: nat): string {
    Digits(baseSeed) + Digits(input)
  }

  /** For one base seed the hashed strings of a run differ exactly when the inputs do. */
  lemma SeedPreimagesDiffer(numBlocks: nat, baseSeed: nat)
    ensures (forall d, e ::
               (InRun(numBlocks, d) && InRun(numBlocks, e)
                && SeedPreimage(baseSeed, Input(d)) == SeedPreimage(baseSeed, Input(e)))
               ==> d == e)
       <==> numBlocks <= 1_000_003
  {
    SaltSeparates(numBlocks);
    forall d, e | SeedPreimage(baseSeed, Input(d)) == SeedPreimage(baseSeed, Input(e))
      ensures Input(d) == Input(e)
    {
      SamePrefix(Digits(baseSeed), Digits(Input(d)), Digits(Input(e)));
      DigitsInjective(Input(d), Input(e));
    }
  }

  lemma SamePrefix(p: string, s: string, t: string)
    requires p + s == p + t
    ensures s == t
  {
    assert (p + s)[|p|..] == s && (p + t)[|p|..] == t;
  }

  /** What is hashed for a transaction: chain, height and slot, with nothing between. */
  function TxPreimage(chainId: nat, height: nat, i: nat): string {
    "tx" + Digits(chainId) + Digits(height) + Digits(i)
  }

  /** The heights g and h of a chain have transactions that hash the same string. */
  ghost predicate Collide(chainId: nat, g: nat, h: nat) {
    exists i: nat, j: nat :: TxPreimage(chainId, g, i) == TxPreimage(chainId, h, j)
  }

  /** The notation of h goes on after that of g, and not with a zero. */
  predicate Continues(g: nat, h: nat) {
    var s, t := Digits(g), Digits(h);
    |s| < |t| && t[..|s|] == s && t[|s|] != '0'
  }

  lemma Regroup(p: string, s: string, t: string)
    ensures p + s + t == p + (s + t)
  {}

  /** What follows the chain decides whether two preimages are equal. */
  lemma SameTail(chainId: nat, g: nat, i: nat, h: nat, j: nat)
    ensures TxPreimage(chainId, g, i) == TxPreimage(chainId, h, j)
       <==> Digits(g) + Digits(i) == Digits(h) + Digits(j)
  {
    var p := "tx" + Digits(chainId);
    Regroup(p, Digits(g), Digits(i));
    Regroup(p, Digits(h), Digits(j));
    if TxPreimage(chainId, g, i) == TxPreimage(chainId, h, j) {
      SamePrefix(p, Digits(g) + Digits(i), Digits(h) + Digits(j));
    }
  }

  lemma SameSplit(s: string, t: string, s': string, t': string)
    requires |s| == |s'| && s + t == s' + t'
    ensures s == s' && t == t'
  {
    assert (s + t)[..|s|] == s && (s' + t')[..|s|] == s';
    assert (s + t)[|s|..] == t && (s' + t')[|s|..] == t';
  }

  /** Transactions of one height are hashed from different strings. */
  lemma SlotsOfHeightDiffer(chainId: nat, h: nat, i: nat, j: nat)
    requires TxPreimage(chainId, h, i) == TxPreimage(chainId, h, j)
    ensures i == j
  {
    SameTail(chainId, h, i, h, j);
    SamePrefix(Digits(h), Digits(i), Digits(j));
    DigitsInjective(i, j);
  }

  /** Equal preimages of different heights: the longer height continues the shorter one,
      as no slot is written with a leading zero. */
  lemma EqualMeansContinues(g: nat, i: nat, h: nat, j: nat)
    requires g != h && |Digits(g)| <= |Digits(h)| && Digits(g) + Digits(i) == Digits(h) + Digits(j)
    ensures Continues(g, h)
  {
    var s, t, x, y := Digits(g), Digits(h), Digits(i), Digits(j);
    if |s| == |t| {
      SameSplit(s, x, t, y);
      DigitsInjective(g, h);
    } else {
      assert (s + x)[..|s|] == s && (t + y)[..|s|] == t[..|s|];
      assert (s + x)[|s|] == x[0] && (t + y)[|s|] == t[|s|];
      assert |x| == |t| - |s| + |y| > 1;
      DigitsAreDecimal(i);
    }
  }

  lemma ContinuesMeansEqual(chainId: nat, g: nat, h: nat)
    requires Continues(g, h)
    ensures Collide(chainId, g, h) && Collide(chainId, h, g)
  {
    var s, t := Digits(g), Digits(h);
    var x := t[|s|..] + Digits(0);
    DigitsAreDecimal(h);
    var i := DecimalIsDigits(x);
    assert s + x == t + Digits(0);
    SameTail(chainId, g, i, h, 0);
  }

  /** Two heights have transactions hashed from the same string exactly when the decimal
      notation of one continues that of the other, with a digit that is not zero. */
  lemma CollideIff(chainId: nat, g: nat, h: nat)
    requires g != h
    ensures Collide(chainId, g, h) <==> Continues(g, h) || Continues(h, g)
  {
    if Collide(chainId, g, h) {
      var i: nat, j: nat :| TxPreimage(chainId, g, i) == TxPreimage(chainId, h, j);
      SameTail(chainId, g, i, h, j);
      if |Digits(g)| <= |Digits(h)| { EqualMeansContinues(g, i, h, j); } else { EqualMeansContinues(h, j, g, i); }
    }
    if Continues(g, h) { ContinuesMeansEqual(chainId, g, h); }
    if Continues(h, g) { ContinuesMeansEqual(chainId, h, g); }
  }

  /** No two transactions of a run hash the same string. */
  ghost predicate TxPreimagesDiffer(chainId: nat, numBlocks: nat) {
    forall g: nat, i: nat, h: nat, j: nat ::
      1 <= g <= numBlocks && 1 <= h <= numBlocks && TxPreimage(chainId, g, i) == TxPreimage(chainId, h, j)
      ==> g == h && i == j
  }

  /** Transactions of a run hash different strings exactly when it has at most ten
      blocks: slot 11 of block 1 and slot 1 of block 11 hash the same one. */
  lemma TxPreimagesDifferIff(chainId: nat, numBlocks: nat)
    ensures TxPreimagesDiffer(chainId, numBlocks) <==> numBlocks <= 10
  {
    if numBlocks <= 10 {
      forall g: nat, i: nat, h: nat, j: nat
        | 1 <= g <= numBlocks && 1 <= h <= numBlocks && TxPreimage(chainId, g, i) == TxPreimage(chainId, h, j)
        ensures g == h && i == j
      {
        if g == h {
          SlotsOfHeightDiffer(chainId, g, i, j);
        } else {
          assert Collide(chainId, g, h);
          CollideIff(chainId, g, h);
          ShortHeights(g, h);
          ShortHeights(h, g);
          assert false;
        }
      }
    } else {
      TxPreimagesMayCoincide(chainId);
    }
  }

  lemma ShortHeights(g: nat, h: nat)
    requires 1 <= g <= 10 && 1 <= h <= 10
    ensures !Continues(g, h)
  {
    if h == 10 {
      assert Digits(10) == [Digit(1), Digit(0)];
    }
  }

  lemma TxPreimagesMayCoincide(chainId: nat)
    ensures TxPreimage(chainId, 1, 11) == TxPreimage(chainId, 11, 1)
  {
    assert Digits(11) == Digits(1) + Digits(1);
    var p, one := "tx" + Digits(chainId), Digits(1);
    assert p + one + (one + one) == p + (one + one) + one;
  }

}
