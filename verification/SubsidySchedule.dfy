/** The block subsidy schedule and the numbering of satoshis that follows from it.

The reference definition is `StartingSat`, the plain sum of all earlier block
subsidies.  The program never computes that sum: it uses a table of epoch starts,
a closed form inside an epoch, and a divisibility shortcut for "is this the first
sat of its block".  The lemmas below say that all three agree with the sum.
*/
module SubsidySchedule {
  const COIN_VALUE: nat := 100_000_000
  const SUBSIDY_HALVING_INTERVAL: nat := 210_000
  const FIRST_POST_SUBSIDY: nat := 33
  const SUPPLY: nat := 2_099_999_997_690_000

  const STARTING_SATS: seq<nat> := [
    0,
    1_050_000_000_000_000,
    1_575_000_000_000_000,
    1_837_500_000_000_000,
    1_968_750_000_000_000,
    2_034_375_000_000_000,
    2_067_187_500_000_000,
    2_083_593_750_000_000,
    2_091_796_875_000_000,
    2_095_898_437_500_000,
    2_097_949_218_750_000,
    2_098_974_609_270_000,
    2_099_487_304_530_000,
    2_099_743_652_160_000,
    2_099_871_825_870_000,
    2_099_935_912_620_000,
    2_099_967_955_890_000,
    2_099_983_977_420_000,
    2_099_991_988_080_000,
    2_099_995_993_410_000,
    2_099_997_995_970_000,
    2_099_998_997_250_000,
    2_099_999_497_890_000,
    2_099_999_748_210_000,
    2_099_999_873_370_000,
    2_099_999_935_950_000,
    2_099_999_967_240_000,
    2_099_999_982_780_000,
    2_099_999_990_550_000,
    2_099_999_994_330_000,
    2_099_999_996_220_000,
    2_099_999_997_060_000,
    2_099_999_997_480_000,
    SUPPLY
  ]

  /** `n >> k`. */
  function ShiftRight(n: nat, k: nat): nat {
    if k == 0 then n else ShiftRight(n, k - 1) / 2
  }

  function EpochSubsidy(epoch: nat): nat {
    if epoch < FIRST_POST_SUBSIDY then ShiftRight(50 * COIN_VALUE, epoch) else 0
  }

  function EpochStartingSat(epoch: nat): nat {
    if epoch < |STARTING_SATS| then STARTING_SATS[epoch] else SUPPLY
  }

  function Subsidy(height: nat): nat {
    EpochSubsidy(height / SUBSIDY_HALVING_INTERVAL)
  }

  /** The number of sats mined before the block at `height`: the reference definition. */
  function StartingSat(height: nat): nat {
    if height == 0 then 0 else StartingSat(height - 1) + Subsidy(height - 1)
  }

  function Product(a: nat, b: nat): nat {
    a * b
  }

  /** The closed form the program evaluates. */
  function FastStartingSat(height: nat): nat {
    var epoch := height / SUBSIDY_HALVING_INTERVAL;
    var blocks: nat := height - epoch * SUBSIDY_HALVING_INTERVAL;
    EpochStartingSat(epoch) + Product(blocks, EpochSubsidy(epoch))
  }

  /** The first epoch at or after `from` whose successor starts above `sat`. */
  function EpochFrom(sat: nat, from: nat): nat
    requires from <= FIRST_POST_SUBSIDY
    decreases FIRST_POST_SUBSIDY - from
  {
    if from == FIRST_POST_SUBSIDY || sat < STARTING_SATS[from + 1] then from else EpochFrom(sat, from + 1)
  }

  function EpochOf(sat: nat): nat {
    EpochFrom(sat, 0)
  }

  /** The height of the block that mined `sat`. Beyond the supply the program divides by zero. */
  function HeightOf(sat: nat): nat
    requires sat < SUPPLY
  {
    EpochShape(sat);
    var epoch := EpochOf(sat);
    epoch * SUBSIDY_HALVING_INTERVAL + (sat - EpochStartingSat(epoch)) / EpochSubsidy(epoch)
  }

  /** Not the first sat of its block, decided the way the program decides it. */
  predicate Common(sat: nat)
    requires sat < SUPPLY
  {
    EpochShape(sat);
    EarlyEpochsAreMultiples(9);
    if sat < EpochStartingSat(10) && sat % EpochSubsidy(9) != 0 then
      true
    else
      var epoch := EpochOf(sat);
      (sat - EpochStartingSat(epoch)) % EpochSubsidy(epoch) != 0
  }

  // ----- the table -----

  /** The subsidies the halvings produce, written out. */
  ghost const EPOCH_SUBSIDIES: seq<nat> := [
    5_000_000_000, 2_500_000_000, 1_250_000_000, 625_000_000, 312_500_000, 156_250_000,
    78_125_000, 39_062_500, 19_531_250, 9_765_625, 4_882_812, 2_441_406,
    1_220_703, 610_351, 305_175, 152_587, 76_293, 38_146,
    19_073, 9_536, 4_768, 2_384, 1_192, 596,
    298, 149, 74, 37, 18, 9,
    4, 2, 1
  ]

  lemma {:induction false} SubsidyRow(epoch: nat)
    requires epoch < FIRST_POST_SUBSIDY
    ensures ShiftRight(50 * COIN_VALUE, epoch) == EPOCH_SUBSIDIES[epoch]
  {
    if epoch > 0 {
      SubsidyRow(epoch - 1);
      assert EPOCH_SUBSIDIES[epoch - 1] / 2 == EPOCH_SUBSIDIES[epoch];
    }
  }

  lemma TableRow(epoch: nat)
    requires epoch < FIRST_POST_SUBSIDY
    ensures 0 < EPOCH_SUBSIDIES[epoch] <= 50 * COIN_VALUE
    ensures STARTING_SATS[epoch + 1] == STARTING_SATS[epoch] + SUBSIDY_HALVING_INTERVAL * EPOCH_SUBSIDIES[epoch]
  {
  }

  lemma EarlyRow(epoch: nat)
    requires epoch < 10
    ensures EPOCH_SUBSIDIES[epoch] % 9_765_625 == 0 && STARTING_SATS[epoch] % 9_765_625 == 0
  {
  }

  /** One row of the table: the next epoch starts one full epoch of subsidies later. */
  lemma TableStep(epoch: nat)
    ensures EpochSubsidy(epoch) > 0 <==> epoch < FIRST_POST_SUBSIDY
    ensures EpochStartingSat(epoch + 1)
         == EpochStartingSat(epoch) + Product(SUBSIDY_HALVING_INTERVAL, EpochSubsidy(epoch))
  {
    if epoch < FIRST_POST_SUBSIDY {
      SubsidyRow(epoch);
      TableRow(epoch);
    }
  }

  /** `EpochOf` finds the epoch whose interval of sats contains `sat`. */
  lemma {:induction false} EpochFromBrackets(sat: nat, from: nat)
    requires from <= FIRST_POST_SUBSIDY && EpochStartingSat(from) <= sat < SUPPLY
    ensures from <= EpochFrom(sat, from) < FIRST_POST_SUBSIDY
    ensures EpochStartingSat(EpochFrom(sat, from)) <= sat < EpochStartingSat(EpochFrom(sat, from) + 1)
    decreases FIRST_POST_SUBSIDY - from
  {
    if from < FIRST_POST_SUBSIDY && STARTING_SATS[from + 1] <= sat {
      EpochFromBrackets(sat, from + 1);
    }
  }

  lemma EpochShape(sat: nat)
    requires sat < SUPPLY
    ensures EpochOf(sat) < FIRST_POST_SUBSIDY
    ensures EpochStartingSat(EpochOf(sat)) <= sat < EpochStartingSat(EpochOf(sat) + 1)
    ensures EpochSubsidy(EpochOf(sat)) > 0
  {
    EpochFromBrackets(sat, 0);
    TableStep(EpochOf(sat));
  }

  // ----- the closed form is the sum -----

  lemma {:induction false} ClosedFormIsSum(height: nat)
    ensures FastStartingSat(height) == StartingSat(height)
  {
    if height > 0 {
      ClosedFormIsSum(height - 1);
      var before := (height - 1) / SUBSIDY_HALVING_INTERVAL;
      var k := height - 1 - before * SUBSIDY_HALVING_INTERVAL;
      OneMore(k, EpochSubsidy(before));
      if k + 1 < SUBSIDY_HALVING_INTERVAL {
        assert height / SUBSIDY_HALVING_INTERVAL == before;
      } else {
        assert height / SUBSIDY_HALVING_INTERVAL == before + 1;
        TableStep(before);
        assert Product(0, EpochSubsidy(before + 1)) == 0;
      }
    }
  }

  lemma OneMore(k: nat, n: nat)
    ensures Product(k + 1, n) == Product(k, n) + n
  {
  }

  lemma {:induction false} StartingSatMonotone(low: nat, high: nat)
    requires low <= high
    ensures StartingSat(low) <= StartingSat(high)
  {
    if low < high {
      StartingSatMonotone(low, high - 1);
    }
  }

  lemma SupplyIsTheLimit(height: nat)
    ensures StartingSat(height) <= SUPPLY
    ensures height >= FIRST_POST_SUBSIDY * SUBSIDY_HALVING_INTERVAL ==> StartingSat(height) == SUPPLY
  {
    var end := FIRST_POST_SUBSIDY * SUBSIDY_HALVING_INTERVAL;
    ClosedFormIsSum(end);
    if height <= end {
      StartingSatMonotone(height, end);
    } else {
      ClosedFormIsSum(height);
    }
  }

  lemma {:induction false} SubsidyAtMostFiftyCoins(height: nat)
    ensures Subsidy(height) <= 50 * COIN_VALUE
  {
    ShiftRightShrinks(50 * COIN_VALUE, height / SUBSIDY_HALVING_INTERVAL);
  }

  lemma {:induction false} ShiftRightShrinks(n: nat, k: nat)
    ensures ShiftRight(n, k) <= n
  {
    if k > 0 {
      ShiftRightShrinks(n, k - 1);
    }
  }

  // ----- which block mined a sat -----

  /** How `HeightOf` and `Common` split a sat: its epoch, the block in the epoch, the sat in the block. */
  lemma Placement(sat: nat) returns (epoch: nat, q: nat, r: nat)
    requires sat < SUPPLY
    ensures epoch == EpochOf(sat) < FIRST_POST_SUBSIDY
    ensures EpochSubsidy(epoch) > 0 && EpochStartingSat(epoch) <= sat
    ensures HeightOf(sat) == epoch * SUBSIDY_HALVING_INTERVAL + q
    ensures q < SUBSIDY_HALVING_INTERVAL && r < EpochSubsidy(epoch)
    ensures r == (sat - EpochStartingSat(epoch)) % EpochSubsidy(epoch)
    ensures StartingSat(HeightOf(sat)) == sat - r
    ensures Subsidy(HeightOf(sat)) == EpochSubsidy(epoch)
  {
    EpochShape(sat);
    epoch := EpochOf(sat);
    TableStep(epoch);
    q, r := DivideWithin(
      EpochStartingSat(epoch), sat, EpochSubsidy(epoch), SUBSIDY_HALVING_INTERVAL, EpochStartingSat(epoch + 1));
    HeightInEpoch(epoch, q);
  }

  lemma DivideWithin(start: nat, sat: nat, n: nat, bound: nat, end: nat) returns (q: nat, r: nat)
    requires n > 0 && start <= sat < end && end == start + Product(bound, n)
    ensures q == (sat - start) / n && r == (sat - start) % n
    ensures q < bound && r < n && start + Product(q, n) + r == sat
  {
    q, r := (sat - start) / n, (sat - start) % n;
    DivisionBelow(sat - start, n, bound);
  }

  lemma HeightOfBrackets(sat: nat)
    requires sat < SUPPLY
    ensures StartingSat(HeightOf(sat)) <= sat < StartingSat(HeightOf(sat) + 1)
  {
    var _, _, _ := Placement(sat);
  }

  /** Inside an epoch every block adds the same subsidy. */
  lemma HeightInEpoch(epoch: nat, q: nat)
    requires q < SUBSIDY_HALVING_INTERVAL
    ensures Subsidy(epoch * SUBSIDY_HALVING_INTERVAL + q) == EpochSubsidy(epoch)
    ensures StartingSat(epoch * SUBSIDY_HALVING_INTERVAL + q)
         == EpochStartingSat(epoch) + Product(q, EpochSubsidy(epoch))
  {
    var height := epoch * SUBSIDY_HALVING_INTERVAL + q;
    assert height / SUBSIDY_HALVING_INTERVAL == epoch;
    ClosedFormIsSum(height);
  }

  lemma DivisionBelow(a: nat, n: nat, bound: nat)
    requires n > 0 && a < Product(bound, n)
    ensures a / n < bound
    ensures Product(a / n, n) + a % n == a
  {
    if a / n >= bound {
      MulMonotone(bound, a / n, n);
    }
  }

  lemma MulMonotone(a: nat, b: nat, n: nat)
    requires a <= b
    ensures Product(a, n) <= Product(b, n)
  {
    assert Product(b, n) == Product(a, n) + Product(b - a, n);
  }

  /** A height that starts at or below a sat and ends above it is the sat's own height. */
  lemma HeightOfUnique(sat: nat, height: nat)
    requires sat < SUPPLY && StartingSat(height) <= sat < StartingSat(height + 1)
    ensures HeightOf(sat) == height
  {
    HeightOfBrackets(sat);
    if HeightOf(sat) < height {
      StartingSatMonotone(HeightOf(sat) + 1, height);
    } else if height < HeightOf(sat) {
      StartingSatMonotone(height + 1, HeightOf(sat));
    }
  }

  /** A sat is mined once its height is below the number of blocks indexed. */
  lemma MinedExactlyBelow(sat: nat, blocks: nat)
    requires sat < SUPPLY
    ensures HeightOf(sat) < blocks <==> sat < StartingSat(blocks)
  {
    HeightOfBrackets(sat);
    if HeightOf(sat) < blocks {
      StartingSatMonotone(HeightOf(sat) + 1, blocks);
    } else {
      StartingSatMonotone(blocks, HeightOf(sat));
    }
  }

  // ----- the first sat of a block -----

  /** The divisibility shortcut agrees with the schedule: a sat is uncommon exactly
      when some block with a subsidy starts with it. */
  lemma UncommonExactlyFirstOfBlock(sat: nat)
    requires sat < SUPPLY
    ensures !Common(sat) <==> exists height :: StartingSat(height) == sat && Subsidy(height) > 0
  {
    UncommonStartsItsBlock(sat);
    forall height | StartingSat(height) == sat && Subsidy(height) > 0
      ensures height == HeightOf(sat)
    {
      HeightOfUnique(sat, height);
    }
  }

  lemma UncommonStartsItsBlock(sat: nat)
    requires sat < SUPPLY
    ensures !Common(sat) <==> sat == StartingSat(HeightOf(sat))
    ensures Subsidy(HeightOf(sat)) > 0
  {
    var epoch, q, r := Placement(sat);
    EarlyEpochsAreMultiples(9);
    if sat < EpochStartingSat(10) && sat % EpochSubsidy(9) != 0 {
      EpochStartsMonotone(10, if epoch < 10 then 10 else epoch);
      if r == 0 {
        FirstOfBlockIsMultiple(sat, epoch);
      }
    }
  }

  lemma FirstOfBlockIsMultiple(sat: nat, epoch: nat)
    requires epoch < 10 && EpochStartingSat(epoch) <= sat && EpochSubsidy(epoch) > 0
    requires (sat - EpochStartingSat(epoch)) % EpochSubsidy(epoch) == 0
    ensures EpochSubsidy(9) > 0 && sat % EpochSubsidy(9) == 0
  {
    EarlyEpochsAreMultiples(epoch);
    var position := sat - EpochStartingSat(epoch);
    MultipleOfMultiple(position, EpochSubsidy(epoch), 9_765_625);
    MultiplesAdd(position, EpochStartingSat(epoch), 9_765_625);
  }

  lemma EarlyEpochsAreMultiples(epoch: nat)
    requires epoch < 10
    ensures EpochSubsidy(9) == 9_765_625
    ensures EpochSubsidy(epoch) % 9_765_625 == 0 && EpochStartingSat(epoch) % 9_765_625 == 0
  {
    SubsidyRow(9);
    SubsidyRow(epoch);
    EarlyRow(epoch);
  }

  lemma {:induction false} EpochStartsMonotone(low: nat, high: nat)
    requires low <= high
    ensures EpochStartingSat(low) <= EpochStartingSat(high)
  {
    if low < high {
      EpochStartsMonotone(low, high - 1);
      TableStep(high - 1);
    }
  }

  lemma MultipleOfMultiple(a: nat, n: nat, unit: nat)
    requires n > 0 && unit > 0 && a % n == 0 && n % unit == 0
    ensures a % unit == 0
  {
    var q, p := a / n, n / unit;
    assert a == q * (p * unit) == Product(q * p, unit);
    ModOfMultiple(q * p, unit);
  }

  lemma MultiplesAdd(a: nat, b: nat, unit: nat)
    requires unit > 0 && a % unit == 0 && b % unit == 0
    ensures (a + b) % unit == 0
  {
    assert a + b == Product(a / unit + b / unit, unit);
    ModOfMultiple(a / unit + b / unit, unit);
  }

  lemma {:induction false} ModOfMultiple(q: nat, unit: nat)
    requires unit > 0
    ensures Product(q, unit) % unit == 0
  {
    if q > 0 {
      ModOfMultiple(q - 1, unit);
      OneMore(q - 1, unit);
      ModAddUnit(Product(q - 1, unit), unit);
    }
  }

  lemma ModAddUnit(a: nat, unit: nat)
    requires unit > 0
    ensures (a + unit) % unit == a % unit
  {
    var q, r := a / unit, a % unit;
    OneMore(q, unit);
    QuotientUnique(a + unit, unit, q + 1, r);
  }

  lemma QuotientUnique(a: nat, unit: nat, q: nat, r: nat)
    requires unit > 0 && a == Product(q, unit) + r && r < unit
    ensures a / unit == q && a % unit == r
  {
    var q', r' := a / unit, a % unit;
    assert a == Product(q', unit) + r';
    if q < q' {
      OneMore(q, unit);
      MulMonotone(q + 1, q', unit);
    } else if q' < q {
      OneMore(q', unit);
      MulMonotone(q' + 1, q, unit);
    }
  }
}
