/** Position buckets, reverse-repo lots and the trading budget (src/ashare_system/portfolio.py). Amounts are yuan. */
module Portfolio {
  import opened Wrappers

  datatype Position = Position(symbol: string, quantity: int, lastPrice: real)

  const UNIT_NOTIONAL := 1000.0

  function MarketValue(p: Position): real {
    p.quantity as real * p.lastPrice
  }

  /** The part of a symbol before its first dot. */
  function Code(symbol: string): string {
    if symbol == "" || symbol[0] == '.' then "" else [symbol[0]] + Code(symbol[1..])
  }

  predicate IsShanghaiRepo(symbol: string) {
    "204" <= Code(symbol)
  }

  predicate IsShenzhenRepo(symbol: string) {
    "1318" <= Code(symbol)
  }

  predicate IsReverseRepo(symbol: string) {
    IsShanghaiRepo(symbol) || IsShenzhenRepo(symbol)
  }

  // --------------------------------------------------------------------- lots

  /** The lot size, for the symbols that have one. */
  function VolumeStep(symbol: string): (step: Option<nat>)
    ensures step.Some? <==> IsReverseRepo(symbol)
    ensures step.Some? ==> step.value > 0
  {
    if IsShanghaiRepo(symbol) then Some(100) else if IsShenzhenRepo(symbol) then Some(1) else None
  }

  /** Floor division twice: whole units in the amount, then whole lots of units. */
  function VolumeForAmount(symbol: string, amount: real): Option<int> {
    match VolumeStep(symbol)
    case None => None
    case Some(step) => Some((amount / UNIT_NOTIONAL).Floor / step * step)
  }

  function OrderAmount(volume: int): real {
    volume as real * UNIT_NOTIONAL
  }

  ghost predicate IsLots(volume: int, step: nat) {
    exists lots: int :: volume == lots * step
  }

  lemma FloorsToLots(units: int, step: nat, lots: int)
    requires step > 0
    ensures units / step * step <= units
    ensures lots * step <= units ==> lots * step <= units / step * step
  {
    if lots > units / step {
      MoreLotsCostMore(lots, units / step + 1, step);
    } else {
      MoreLotsCostMore(units / step, lots, step);
    }
  }

  lemma MoreLotsCostMore(lots: int, fewer: int, step: nat)
    requires fewer <= lots
    ensures fewer * step <= lots * step
  {
  }

  /** The volume is the largest whole number of lots that the amount pays for, negative amounts included. */
  lemma VolumeIsLargestLot(symbol: string, amount: real, volume: int)
    requires IsReverseRepo(symbol)
    ensures VolumeForAmount(symbol, amount) == Some(volume) <==>
            && IsLots(volume, VolumeStep(symbol).value)
            && OrderAmount(volume) <= amount
            && forall w: int :: IsLots(w, VolumeStep(symbol).value) && OrderAmount(w) <= amount ==> w <= volume
  {
    var step := VolumeStep(symbol).value;
    var units := (amount / UNIT_NOTIONAL).Floor;
    var best := units / step * step;
    assert IsLots(best, step);
    FloorsToLots(units, step, 0);
    assert OrderAmount(best) <= amount;
    forall w: int | IsLots(w, step) && OrderAmount(w) <= amount
      ensures w <= best
    {
      assert w <= units;
      var lots: int :| w == lots * step;
      FloorsToLots(units, step, lots);
    }
  }

  // ------------------------------------------------------------------ buckets

  function Bucket(positions: seq<Position>, repo: bool): seq<Position> {
    if positions == [] then []
    else
      var rest := Bucket(positions[..|positions| - 1], repo);
      var last := positions[|positions| - 1];
      if IsReverseRepo(last.symbol) == repo then rest + [last] else rest
  }

  function Value(positions: seq<Position>): real {
    if positions == [] then 0.0 else Value(positions[..|positions| - 1]) + MarketValue(positions[|positions| - 1])
  }

  class PositionBucketSummary {
    var equityPositions: seq<Position>
    var reverseRepoPositions: seq<Position>
    var equityValue: real
    var reverseRepoValue: real

    constructor ()
      ensures equityPositions == [] && reverseRepoPositions == [] && equityValue == 0.0 && reverseRepoValue == 0.0
    {
      equityPositions, reverseRepoPositions, equityValue, reverseRepoValue := [], [], 0.0, 0.0;
    }
  }

  method SummarizePositionBuckets(positions: seq<Position>) returns (summary: PositionBucketSummary)
    ensures fresh(summary)
    ensures summary.equityPositions == Bucket(positions, false)
    ensures summary.reverseRepoPositions == Bucket(positions, true)
    ensures summary.equityValue == Value(Bucket(positions, false))
    ensures summary.reverseRepoValue == Value(Bucket(positions, true))
  {
    summary := new PositionBucketSummary();
    for n := 0 to |positions|
      invariant fresh(summary)
      invariant summary.equityPositions == Bucket(positions[..n], false)
      invariant summary.reverseRepoPositions == Bucket(positions[..n], true)
      invariant summary.equityValue == Value(summary.equityPositions)
      invariant summary.reverseRepoValue == Value(summary.reverseRepoPositions)
    {
      assert positions[..n + 1][..n] == positions[..n];
      var item := positions[n];
      var marketValue := MarketValue(item);
      if IsReverseRepo(item.symbol) {
        ValueAppend(summary.reverseRepoPositions, item);
        summary.reverseRepoPositions := summary.reverseRepoPositions + [item];
        summary.reverseRepoValue := summary.reverseRepoValue + marketValue;
      } else {
        ValueAppend(summary.equityPositions, item);
        summary.equityPositions := summary.equityPositions + [item];
        summary.equityValue := summary.equityValue + marketValue;
      }
    }
    assert positions[..|positions|] == positions;
  }

  lemma ValueAppend(positions: seq<Position>, item: Position)
    ensures Value(positions + [item]) == Value(positions) + MarketValue(item)
  {
    assert (positions + [item])[..|positions|] == positions;
  }

  lemma {:induction false} BucketsConserveValue(positions: seq<Position>)
    ensures Value(Bucket(positions, false)) + Value(Bucket(positions, true)) == Value(positions)
  {
    if positions != [] {
      var front := positions[..|positions| - 1];
      var last := positions[|positions| - 1];
      BucketsConserveValue(front);
      ValueAppend(Bucket(front, IsReverseRepo(last.symbol)), last);
    }
  }

  lemma {:induction false} BucketIsSound(positions: seq<Position>, repo: bool)
    ensures forall p :: p in Bucket(positions, repo) ==> IsReverseRepo(p.symbol) == repo
  {
    if positions != [] {
      BucketIsSound(positions[..|positions| - 1], repo);
    }
  }

  lemma {:induction false} BucketsPartition(positions: seq<Position>)
    ensures multiset(Bucket(positions, false)) + multiset(Bucket(positions, true)) == multiset(positions)
  {
    if positions != [] {
      var front := positions[..|positions| - 1];
      BucketsPartition(front);
      assert positions == front + [positions[|positions| - 1]];
    }
  }

  /** No position and no value is lost or counted twice, and each is in the bucket of its kind. */
  lemma BucketsConserve(positions: seq<Position>)
    ensures multiset(Bucket(positions, false)) + multiset(Bucket(positions, true)) == multiset(positions)
    ensures Value(Bucket(positions, false)) + Value(Bucket(positions, true)) == Value(positions)
    ensures forall repo: bool, p :: p in Bucket(positions, repo) ==> IsReverseRepo(p.symbol) == repo
  {
    BucketsPartition(positions);
    BucketsConserveValue(positions);
    BucketIsSound(positions, false);
    BucketIsSound(positions, true);
  }

  // ------------------------------------------------------------------- budget

  datatype Budget = Budget(stockBudget: real, stockRemaining: real, repoGap: real)

  function Max(a: real, b: real): real {
    if a < b then b else a
  }

  function Min(a: real, b: real): real {
    if a < b then a else b
  }

  function BuildTestTradingBudget(
      totalAsset: real, equityValue: real, repoValue: real, minimumInvested: real, repoReserved: real, limitRatio: real)
    : Budget
  {
    var baseline := Max(minimumInvested - repoReserved, 0.0);
    var positionLimit := Max(totalAsset * limitRatio, 0.0);
    var stockBudget := Min(positionLimit, baseline);
    Budget(stockBudget, Max(stockBudget - equityValue, 0.0), Max(repoReserved - repoValue, 0.0))
  }

  /**
   * Spending the rest of the stock budget and closing the repo gap lifts each bucket to its target and no
   * further, and together to no more than the minimum invested amount if neither was above its target.
   */
  lemma BudgetReachesTargets(
      totalAsset: real, equityValue: real, repoValue: real, minimumInvested: real, repoReserved: real, limitRatio: real)
    ensures var b :=
              BuildTestTradingBudget(totalAsset, equityValue, repoValue, minimumInvested, repoReserved, limitRatio);
            && equityValue + b.stockRemaining == Max(equityValue, b.stockBudget)
            && repoValue + b.repoGap == Max(repoValue, repoReserved)
            && 0.0 <= b.stockBudget && (0.0 <= totalAsset * limitRatio ==> b.stockBudget <= totalAsset * limitRatio)
            && (equityValue <= b.stockBudget && repoValue <= repoReserved <= minimumInvested ==>
                  equityValue + b.stockRemaining + repoValue + b.repoGap <= minimumInvested)
  {
  }

  // ---------------------------------------------------------- which lot size

  lemma {:induction false} CodeStarts(prefix: string, symbol: string)
    requires '.' !in prefix
    ensures prefix <= Code(symbol) <==> prefix <= symbol
  {
    if prefix != "" && symbol != "" && symbol[0] != '.' && prefix[0] == symbol[0] {
      CodeStarts(prefix[1..], symbol[1..]);
      assert prefix == [prefix[0]] + prefix[1..] && symbol == [symbol[0]] + symbol[1..];
      assert Code(symbol) == [symbol[0]] + Code(symbol[1..]);
    }
  }

  /** Shanghai repos start with 204 and come in lots of 100 units, Shenzhen ones with 1318 and by the unit. */
  lemma StepIs(symbol: string)
    ensures VolumeStep(symbol) ==
            if "204" <= symbol then Some(100) else if "1318" <= symbol then Some(1) else None
    ensures IsReverseRepo(symbol) <==> "204" <= symbol || "1318" <= symbol
  {
    CodeStarts("204", symbol);
    CodeStarts("1318", symbol);
  }

  /** A unit is a thousand yuan. */
  lemma AmountIs(volume: int)
    ensures OrderAmount(volume) == volume as real * 1000.0
  {
  }
}
