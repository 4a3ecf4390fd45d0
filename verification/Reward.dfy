/** Block and uncle rewards (Yellow Paper section 11.3, EIP-649, EIP-1234), in place on big integers. */
module Reward {
  class BigInt {
    var v: int

    constructor (x: int)
      ensures v == x
    {
      v := x;
    }

    /** The receiver is overwritten with the result and returned, as in Go's math/big. */
    method Add(x: BigInt, y: BigInt) returns (z: BigInt)
      modifies this
      ensures z == this && v == old(x.v) + old(y.v)
    {
      v := x.v + y.v;
      z := this;
    }

    method Sub(x: BigInt, y: BigInt) returns (z: BigInt)
      modifies this
      ensures z == this && v == old(x.v) - old(y.v)
    {
      v := x.v - y.v;
      z := this;
    }

    method Mul(x: BigInt, y: BigInt) returns (z: BigInt)
      modifies this
      ensures z == this && v == old(x.v) * old(y.v)
    {
      v := x.v * y.v;
      z := this;
    }

    method Div(x: BigInt, y: BigInt) returns (z: BigInt)
      requires y.v != 0
      modifies this
      ensures z == this && v == old(x.v) / old(y.v)
    {
      v := x.v / y.v;
      z := this;
    }
  }

  datatype Tx = Tx(gasPrice: nat)
  /** gasUsed is a uint64. */
  datatype Receipt = Receipt(gasUsed: nat)

  const TWO63: int := 0x8000_0000_0000_0000
  const TWO64: int := 0x1_0000_0000_0000_0000

  /** The low 64 bits, read as a signed number. */
  function Int64(x: int): int {
    var low := x % TWO64;
    if low < TWO63 then low else low - TWO64
  }

  // ----- what the rewards should be -----

  function StaticReward(blockNumber: int): int {
    if blockNumber >= 7280000 then 2_000_000_000_000_000_000
    else if blockNumber >= 4370000 then 3_000_000_000_000_000_000
    else 5_000_000_000_000_000_000
  }

  /** The reward never rises with the height, and falls at two heights only. */
  lemma RewardFalls(a: int, b: int)
    requires a <= b
    ensures StaticReward(b) <= StaticReward(a)
    ensures StaticReward(b) == StaticReward(a) <==>
            b < 4370000 || (4370000 <= a && b < 7280000) || 7280000 <= a
  {
  }

  function Fees(txs: seq<Tx>, receipts: seq<Receipt>): int
    requires |txs| <= |receipts|
  {
    if txs == [] then 0
    else Fees(txs[..|txs| - 1], receipts) + txs[|txs| - 1].gasPrice * receipts[|txs| - 1].gasUsed
  }

  /** Each transaction contributes its own gas price times the gas its own receipt used. */
  lemma {:induction false} FeesAddUp(txs: seq<Tx>, receipts: seq<Receipt>, i: nat)
    requires |txs| <= |receipts| && i < |txs|
    ensures Fees(txs, receipts) == txs[i].gasPrice * receipts[i].gasUsed
              + Fees(txs[..i] + txs[i + 1..], receipts[..i] + receipts[i + 1..])
    ensures Fees([], receipts) == 0
  {
    var last := |txs| - 1;
    var rest, rcts := txs[..i] + txs[i + 1..], receipts[..i] + receipts[i + 1..];
    if i == last {
      assert rest == txs[..last];
      FeesOfPrefix(rest, receipts, rcts);
    } else {
      FeesAddUp(txs[..last], receipts, i);
      assert rest[..last - 1] == txs[..last][..i] + txs[..last][i + 1..];
      assert rest[last - 1] == txs[last] && rcts[last - 1] == receipts[last];
    }
  }

  /** Receipts past the transactions do not count. */
  lemma {:induction false} FeesOfPrefix(txs: seq<Tx>, a: seq<Receipt>, b: seq<Receipt>)
    requires |txs| <= |a| && |txs| <= |b| && forall i :: 0 <= i < |txs| ==> a[i] == b[i]
    ensures Fees(txs, a) == Fees(txs, b)
  {
    if txs != [] { FeesOfPrefix(txs[..|txs| - 1], a, b); }
  }

  /** The same with both factors cut to 64 bits. */
  function CutFees(txs: seq<Tx>, receipts: seq<Receipt>): int
    requires |txs| <= |receipts|
  {
    if txs == [] then 0
    else CutFees(txs[..|txs| - 1], receipts) + Int64(txs[|txs| - 1].gasPrice) * Int64(receipts[|txs| - 1].gasUsed)
  }

  /** Neither factor is cut in a way that shows: both are below 2^63, one is zero, or both are 2^63. */
  predicate Plain(gasPrice: nat, gasUsed: nat) {
    || ((gasPrice < 0x8000_0000_0000_0000 || gasUsed == 0) && (gasUsed < 0x8000_0000_0000_0000 || gasPrice == 0))
    || (gasPrice == 0x8000_0000_0000_0000 && gasUsed == 0x8000_0000_0000_0000)
  }

  lemma Int64Cases(x: nat)
    ensures -TWO63 <= Int64(x) < TWO63
    ensures Int64(x) <= x
    ensures Int64(x) == x <==> x < TWO63
    ensures x >= TWO63 ==> Int64(x) <= x - TWO64 || Int64(x) >= 0
    ensures Int64(x) < 0 ==> x >= TWO63
    ensures x < TWO64 && x >= TWO63 ==> Int64(x) == x - TWO64
    ensures Int64(x) == -TWO63 && x < TWO64 ==> x == TWO63
  {
  }

  lemma MulMonotone(a: int, b: int, c: nat)
    requires a <= b
    ensures a * c <= b * c && (a * c == b * c <==> a == b || c == 0)
  {
    assert b * c - a * c == (b - a) * c;
    if c > 0 && a < b { assert (b - a) * c >= 1; }
  }

  lemma MulAtMost(a: nat, b: nat, m: nat, n: nat)
    requires a <= m && b <= n && m > 0 && n > 0
    ensures a * b <= m * n
    ensures a * b == m * n <==> a == m && b == n
  {
    MulMonotone(a, m, b);
    MulMonotone(b, n, m);
    assert b * m == m * b && n * m == m * n;
  }

  /** Cutting never raises a fee, and leaves it as it is exactly when it is plain. */
  lemma CutFee(p: nat, g: nat)
    requires g < TWO64
    ensures Int64(p) * Int64(g) <= p * g
    ensures Int64(p) * Int64(g) == p * g <==> Plain(p, g)
  {
    Int64Cases(p);
    Int64Cases(g);
    var a, b := Int64(p), Int64(g);
    if g < TWO63 {
      MulMonotone(a, p, g);
    } else if p == 0 {
    } else if a >= 0 {
      MulMonotone(b, 0, a);
      assert a * b == b * a;
      MulMonotone(0, g, p);
      assert g * p == p * g;
    } else {
      assert a * b == (-a) * (-b);
      MulAtMost(-a, -b, TWO63, TWO63);
      MulAtMost(TWO63, TWO63, p, g);
    }
  }

  predicate AllPlain(txs: seq<Tx>, receipts: seq<Receipt>)
    requires |txs| <= |receipts|
  {
    forall i :: 0 <= i < |txs| ==> Plain(txs[i].gasPrice, receipts[i].gasUsed)
  }

  /** The computed fees are the fees exactly when every transaction's are; otherwise they are too low. */
  lemma {:induction false} FeesExact(txs: seq<Tx>, receipts: seq<Receipt>)
    requires |txs| <= |receipts| && forall i :: 0 <= i < |receipts| ==> receipts[i].gasUsed < TWO64
    ensures CutFees(txs, receipts) <= Fees(txs, receipts)
    ensures CutFees(txs, receipts) == Fees(txs, receipts) <==> AllPlain(txs, receipts)
  {
    if txs != [] {
      var last := |txs| - 1;
      FeesExact(txs[..last], receipts);
      CutFee(txs[last].gasPrice, receipts[last].gasUsed);
      assert AllPlain(txs, receipts) <==>
        AllPlain(txs[..last], receipts) && Plain(txs[last].gasPrice, receipts[last].gasUsed);
    }
  }

  // ----- the code -----

  method StaticRewardByBlockNumber(blockNumber: int) returns (r: BigInt)
    ensures fresh(r) && r.v == StaticReward(blockNumber)
  {
    r := new BigInt(0);
    if blockNumber >= 7280000 {
      r.v := 2_000_000_000_000_000_000;
    } else if blockNumber >= 4370000 {
      r.v := 3_000_000_000_000_000_000;
    } else {
      r.v := 5_000_000_000_000_000_000;
    }
  }

  method CalcEthTransactionFees(txs: seq<Tx>, receipts: seq<Receipt>) returns (fees: BigInt)
    requires |txs| <= |receipts|
    ensures fresh(fees) && fees.v == CutFees(txs, receipts)
  {
    fees := new BigInt(0);
    for i := 0 to |txs|
      invariant fresh(fees) && fees.v == CutFees(txs[..i], receipts)
    {
      var gasPrice := new BigInt(Int64(txs[i].gasPrice));
      var gasUsed := new BigInt(Int64(receipts[i].gasUsed));
      var fee := gasPrice.Mul(gasPrice, gasUsed);
      assert txs[..i + 1][..i] == txs[..i];
      fees := fees.Add(fees, fee);
    }
    assert txs[..|txs|] == txs;
  }

  method CalcEthUncleInclusionRewards(blockNumber: int, uncles: nat) returns (rewards: BigInt)
    ensures fresh(rewards) && rewards.v == uncles * (StaticReward(blockNumber) / 32)
  {
    rewards := new BigInt(0);
    for i := 0 to uncles
      invariant fresh(rewards) && rewards.v == i * (StaticReward(blockNumber) / 32)
    {
      var staticReward := StaticRewardByBlockNumber(blockNumber);
      var thirtyTwo := new BigInt(32);
      var _ := staticReward.Div(staticReward, thirtyTwo);
      var _ := rewards.Add(rewards, staticReward);
    }
  }

  /** R + n*R/32 + fees without rounding, exactly when no gas price or gas used is cut; else too little. */
  method CalcEthBlockReward(number: int, uncles: nat, txs: seq<Tx>, receipts: seq<Receipt>) returns (r: BigInt)
    requires |txs| <= |receipts| && forall i :: 0 <= i < |receipts| ==> receipts[i].gasUsed < TWO64
    ensures fresh(r)
    ensures var R := StaticReward(Int64(number));
            && 32 * (r.v - R - CutFees(txs, receipts)) == uncles * R
            && 32 * r.v <= 32 * R + uncles * R + 32 * Fees(txs, receipts)
            && (32 * r.v == 32 * R + uncles * R + 32 * Fees(txs, receipts) <==> AllPlain(txs, receipts))
    ensures var n, due := Int64(number), 32 * (r.v - CutFees(txs, receipts));
            && (7280000 <= n ==> due == (32 + uncles) * 2_000_000_000_000_000_000)
            && (4370000 <= n <= 7279999 ==> due == (32 + uncles) * 3_000_000_000_000_000_000)
            && (n <= 4369999 ==> due == (32 + uncles) * 5_000_000_000_000_000_000)
  {
    var staticReward := StaticRewardByBlockNumber(Int64(number));
    var fees := CalcEthTransactionFees(txs, receipts);
    var inclusion := CalcEthUncleInclusionRewards(Int64(number), uncles);
    var tmp := fees.Add(fees, inclusion);
    r := tmp.Add(tmp, staticReward);
    ThirtySecond(Int64(number), uncles);
    FeesExact(txs, receipts);
  }

  /** In every era the static reward is a multiple of 32, and so of 8. */
  lemma ThirtySecond(blockNumber: int, n: nat)
    ensures 32 * (n * (StaticReward(blockNumber) / 32)) == n * StaticReward(blockNumber)
    ensures 8 * (StaticReward(blockNumber) / 8) == StaticReward(blockNumber)
  {
    var q := StaticReward(blockNumber) / 32;
    assert StaticReward(blockNumber) == 32 * q;
    assert 32 * (n * q) == n * (32 * q);
  }

  /** R*(8+u-b)/8 without rounding; a proper share of R exactly for uncles one to seven blocks back. */
  method CalcUncleMinerReward(blockNumber: int, uncleBlockNumber: int) returns (r: BigInt)
    ensures fresh(r)
    ensures 8 * r.v == StaticReward(blockNumber) * (8 + uncleBlockNumber - blockNumber)
    ensures var eighths := 8 - (blockNumber - uncleBlockNumber);
            && (7280000 <= blockNumber ==> r.v == eighths * 250_000_000_000_000_000)
            && (4370000 <= blockNumber <= 7279999 ==> r.v == eighths * 375_000_000_000_000_000)
            && (blockNumber <= 4369999 ==> r.v == eighths * 625_000_000_000_000_000)
    ensures 0 < r.v < StaticReward(blockNumber) <==> 1 <= blockNumber - uncleBlockNumber <= 7
  {
    var staticReward := StaticRewardByBlockNumber(blockNumber);
    var eight := new BigInt(8);
    var rewardDiv8 := staticReward.Div(staticReward, eight);
    var mainBlock := new BigInt(blockNumber);
    var uncleBlock := new BigInt(uncleBlockNumber);
    var eight' := new BigInt(8);
    var plus8 := uncleBlock.Add(uncleBlock, eight');
    var share := plus8.Sub(plus8, mainBlock);
    r := rewardDiv8.Mul(rewardDiv8, share);
    ThirtySecond(blockNumber, 0);
  }
}
