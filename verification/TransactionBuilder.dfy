/** Building a transaction that sends one chosen sat to the start of one output.

Each stage of the pipeline changes the builder in place.  The stages keep the books
balanced and keep the chosen sat at the start of the recipient's output; the lemmas in
SatDelivery.dfy say what that means for the index.
*/
module TransactionBuilder {
  import opened Options
  import opened Bitcoin
  import opened CoinSelection
  import opened BuildChecks

  const ADDITIONAL_INPUT_VBYTES: nat := 57
  const ADDITIONAL_OUTPUT_VBYTES: nat := 43
  const MAX_POSTAGE: nat := 20_000
  const TARGET_POSTAGE: nat := 10_000

  datatype Target = Value(amount: nat) | Postage | ExactPostage(amount: nat)

  datatype Inscription = Inscription(satpoint: SatPoint, ids: seq<nat>)

  datatype Error =
    | DuplicateAddress(script: Script)
    | Dust(outputValue: nat, dustValue: nat)
    | InvalidAddress
    | NotEnoughCardinalUtxos
    | NotInWallet(missing: SatPoint)
    | OutOfRange(satpoint: SatPoint, maximum: int)
    | UtxoContainsAdditionalInscriptions(outgoing: SatPoint, inscribed: SatPoint, ids: seq<nat>)
    | ValueOverflow

  /** What the stages up to `AddValue` have put together. */
  datatype Draft = Draft(inputs: seq<OutPoint>, outputs: seq<TxOut>, utxos: seq<OutPoint>)

  /** How a stage ends. `Panic` stands for a failed assertion of the program. */
  datatype Outcome = Done | Failed(error: Error) | Panic

  // ----- fees and sizes -----

  predicate NoDearer(fee: nat -> nat, low: nat, high: nat) {
    low <= high ==> fee(low) <= fee(high)
  }

  /** A larger transaction never costs less. */
  ghost predicate Monotone(fee: nat -> nat) {
    forall low, high {:trigger NoDearer(fee, low, high)} :: NoDearer(fee, low, high)
  }

  predicate NoSaving(fee: nat -> nat, a: nat, b: nat) {
    fee(a + b) <= fee(a) + fee(b)
  }

  /** Splitting a transaction saves nothing. */
  ghost predicate Subadditive(fee: nat -> nat) {
    forall a, b {:trigger NoSaving(fee, a, b)} :: NoSaving(fee, a, b)
  }

  predicate CostsAtRate(fee: nat -> nat, rate: nat, vsize: nat) {
    fee(vsize) == rate * vsize
  }

  /** `rate` sats for each virtual byte. */
  ghost predicate AtRate(fee: nat -> nat, rate: nat) {
    forall vsize {:trigger CostsAtRate(fee, rate, vsize)} :: CostsAtRate(fee, rate, vsize)
  }

  /** The rate for every second coin. */
  function Shortfall(rate: nat, coins: nat): nat {
    if coins == 0 then 0 else if coins == 1 then rate else rate + Shortfall(rate, coins - 2)
  }

  lemma {:induction false} ShortfallIsHalf(rate: nat, coins: nat)
    ensures Shortfall(rate, coins) == rate * ((coins + 1) / 2)
  {
    if coins > 1 {
      ShortfallIsHalf(rate, coins - 2);
      var half := (coins - 2 + 1) / 2;
      assert (coins + 1) / 2 == half + 1;
      assert rate * (half + 1) == rate * half + rate;
    }
  }

  /** The fee at a fractional rate, rounded to the nearest sat, halves up. */
  function RoundedFee(num: nat, den: nat, vsize: nat): nat
    requires den > 0
  {
    (2 * (num * vsize) + den) / (2 * den)
  }

  function OutputsSize(outputs: seq<TxOut>): nat {
    if outputs == [] then 0 else OutputSize(outputs[0].script) + OutputsSize(outputs[1..])
  }

  /** Weight units of a transaction whose inputs are taproot key path spends with one 64-byte signature each. */
  function Weight(inputs: nat, outputs: seq<TxOut>): nat {
    4 * (8 + CompactSize(inputs) + 41 * inputs + CompactSize(|outputs|) + OutputsSize(outputs)) + 2 + 66 * inputs
  }

  function VSize(inputs: nat, outputs: seq<TxOut>): nat {
    (Weight(inputs, outputs) + 3) / 4
  }

  /** Every fractional rate is a fee that the builder can work with. */
  lemma RoundedFeeIsMonotone(num: nat, den: nat)
    requires den > 0
    ensures Monotone((vsize: nat) => RoundedFee(num, den, vsize))
  {
    var fee := (vsize: nat) => RoundedFee(num, den, vsize);
    forall low: nat, high: nat
      ensures NoDearer(fee, low, high)
    {
      if low <= high {
        TimesMonotone(low, high, num);
        DivideMonotone(2 * (num * low) + den, 2 * (num * high) + den, 2 * den);
      }
    }
  }

  lemma Quotient(n: nat, d: nat) returns (q: nat)
    requires d > 0
    ensures q == n / d && q * d <= n < (q + 1) * d
  {
    q := n / d;
  }

  lemma TwoMore(p: nat, q: nat, d: nat)
    ensures (p + q + 2) * d == (p + 1) * d + (q + 1) * d
  {
  }

  lemma QuotientOfSum(a: nat, b: nat, c: nat, d: nat, p: nat, q: nat, r: nat)
    requires a < (p + 1) * d && b < (q + 1) * d && r * d <= c <= a + b
    ensures r <= p + q + 1
  {
    TwoMore(p, q, d);
    TimesMonotone(p + q + 2, r, d);
  }

  lemma DivideSum(a: nat, b: nat, c: nat, d: nat)
    requires d > 0 && c <= a + b
    ensures c / d <= a / d + b / d + 1
  {
    var p := Quotient(a, d);
    var q := Quotient(b, d);
    var r := Quotient(c, d);
    QuotientOfSum(a, b, c, d, p, q, r);
  }

  /** At a fractional rate two parts cost at most one sat less than the whole. */
  lemma RoundingSavesOne(num: nat, den: nat, a: nat, b: nat)
    requires den > 0
    ensures RoundedFee(num, den, a + b) <= RoundedFee(num, den, a) + RoundedFee(num, den, b) + 1
  {
    assert num * (a + b) == num * a + num * b;
    DivideSum(2 * (num * a) + den, 2 * (num * b) + den, 2 * (num * (a + b)) + den, 2 * den);
  }

  predicate RoundsAtRate(fee: nat -> nat, num: nat, den: nat, vsize: nat)
    requires den > 0
  {
    fee(vsize) == RoundedFee(num, den, vsize)
  }

  lemma DivideMonotone(a: nat, b: nat, d: nat)
    requires a <= b && d > 0
    ensures a / d <= b / d
  {
    TimesMonotone(b / d + 1, a / d, d);
  }

  lemma TimesMonotone(a: nat, b: nat, d: nat)
    ensures a <= b ==> a * d <= b * d
  {
    if a <= b {
      assert b * d == a * d + (b - a) * d;
    }
  }

  lemma WholeRate(fee: nat -> nat, rate: nat, vsize: nat, k: nat, larger: nat)
    requires AtRate(fee, rate)
    requires larger <= vsize + ADDITIONAL_INPUT_VBYTES * k + (k + 1) / 2
    ensures fee(larger) <= fee(vsize) + fee(ADDITIONAL_INPUT_VBYTES) * k + Shortfall(rate, k)
  {
    var half := (k + 1) / 2;
    assert CostsAtRate(fee, rate, larger) && CostsAtRate(fee, rate, vsize);
    assert CostsAtRate(fee, rate, ADDITIONAL_INPUT_VBYTES);
    TimesMonotone(larger, vsize + ADDITIONAL_INPUT_VBYTES * k + half, rate);
    ShortfallIsHalf(rate, k);
    WholeRateSum(rate, vsize, k, half);
  }

  /** A whole rate is a fee that the builder can work with, and splitting saves nothing. */
  lemma WholeRateIsOrdinary(fee: nat -> nat, rate: nat)
    requires AtRate(fee, rate)
    ensures Monotone(fee) && Subadditive(fee)
  {
    forall low: nat, high: nat
      ensures NoDearer(fee, low, high)
    {
      assert CostsAtRate(fee, rate, low) && CostsAtRate(fee, rate, high);
      TimesMonotone(low, high, rate);
    }
    forall a: nat, b: nat
      ensures NoSaving(fee, a, b)
    {
      assert CostsAtRate(fee, rate, a) && CostsAtRate(fee, rate, b) && CostsAtRate(fee, rate, a + b);
      assert rate * (a + b) == rate * a + rate * b;
    }
  }

  lemma AddressDust(script: Script)
    requires IsAddress(script)
    ensures 0 < MinimalNonDust(script) <= 546
  {
  }

  lemma WholeRateSum(rate: nat, vsize: nat, k: nat, half: nat)
    ensures (vsize + ADDITIONAL_INPUT_VBYTES * k + half) * rate
         == rate * vsize + (rate * ADDITIONAL_INPUT_VBYTES) * k + rate * half
  {
  }

  // ----- outputs -----

  lemma {:induction false} OutputTotalSnoc(outputs: seq<TxOut>, last: TxOut)
    ensures OutputTotal(outputs + [last]) == OutputTotal(outputs) + last.value
  {
    if outputs == [] {
      assert outputs + [last] == [last];
    } else {
      assert (outputs + [last])[1..] == outputs[1..] + [last];
      OutputTotalSnoc(outputs[1..], last);
    }
  }

  lemma {:induction false} OutputsSizeSnoc(outputs: seq<TxOut>, last: TxOut)
    ensures OutputsSize(outputs + [last]) == OutputsSize(outputs) + OutputSize(last.script)
  {
    if outputs == [] {
      assert outputs + [last] == [last];
    } else {
      assert (outputs + [last])[1..] == outputs[1..] + [last];
      OutputsSizeSnoc(outputs[1..], last);
    }
  }

  lemma SplitLast(outputs: seq<TxOut>)
    requires outputs != []
    ensures outputs == outputs[..|outputs| - 1] + [outputs[|outputs| - 1]]
    ensures OutputTotal(outputs) == OutputTotal(outputs[..|outputs| - 1]) + outputs[|outputs| - 1].value
  {
    var front, last := outputs[..|outputs| - 1], outputs[|outputs| - 1];
    assert front + [last] == outputs;
    OutputTotalSnoc(front, last);
  }

  lemma OutputTotalOfTwo(outputs: seq<TxOut>)
    ensures |outputs| == 1 ==> OutputTotal(outputs) == outputs[0].value && OutputTotal(outputs[..0]) == 0
    ensures |outputs| == 2 ==>
      OutputTotal(outputs) == outputs[0].value + outputs[1].value && OutputTotal(outputs[..1]) == outputs[0].value
  {
    if |outputs| == 2 {
      assert outputs[1..][1..] == [];
    }
  }

  /** Changing the value of the last output. */
  function SetLast(outputs: seq<TxOut>, value: nat): seq<TxOut>
    requires outputs != []
  {
    outputs[..|outputs| - 1] + [outputs[|outputs| - 1].(value := value)]
  }

  lemma SetLastKeeps(outputs: seq<TxOut>, value: nat)
    requires outputs != []
    ensures OutputTotal(SetLast(outputs, value)) + outputs[|outputs| - 1].value == OutputTotal(outputs) + value
    ensures OutputsSize(SetLast(outputs, value)) == OutputsSize(outputs)
    ensures forall inputs :: VSize(inputs, SetLast(outputs, value)) == VSize(inputs, outputs)
  {
    var front, last := outputs[..|outputs| - 1], outputs[|outputs| - 1];
    SplitLast(outputs);
    OutputTotalSnoc(front, last.(value := value));
    OutputsSizeSnoc(front, last);
    OutputsSizeSnoc(front, last.(value := value));
  }

  /** One more output of an ordinary size adds at most the budgeted virtual bytes. */
  lemma OneMoreOutput(inputs: nat, outputs: seq<TxOut>, last: TxOut)
    requires |outputs| < 252 && |last.script| <= 34
    ensures VSize(inputs, outputs + [last]) <= VSize(inputs, outputs) + ADDITIONAL_OUTPUT_VBYTES
  {
    OutputsSizeSnoc(outputs, last);
    assert Weight(inputs, outputs + [last]) == Weight(inputs, outputs) + 4 * OutputSize(last.script);
  }

  /** `k` more inputs cost half a virtual byte each, rounded up in all, beyond what is budgeted for them. */
  lemma MoreInputs(inputs: nat, k: nat, outputs: seq<TxOut>)
    requires inputs + k < 253
    ensures VSize(inputs + k, outputs) <= VSize(inputs, outputs) + ADDITIONAL_INPUT_VBYTES * k + (k + 1) / 2
  {
    assert Weight(inputs + k, outputs) == Weight(inputs, outputs) + 230 * k;
  }

  /** More value for the first output. */
  function Enlarged(outputs: seq<TxOut>, value: nat): seq<TxOut>
    requires outputs != []
  {
    [outputs[0].(value := outputs[0].value + value)] + outputs[1..]
  }

  /** More value for the last output. */
  function Raised(outputs: seq<TxOut>, value: nat): seq<TxOut>
    requires outputs != []
  {
    SetLast(outputs, outputs[|outputs| - 1].value + value)
  }

  // ----- inscriptions in the way -----

  /** Sending `outgoing` would drag this inscription along. */
  predicate Blocks(inscription: Inscription, outgoing: SatPoint, dust: nat) {
    && inscription.satpoint.outpoint == outgoing.outpoint
    && inscription.satpoint.offset != outgoing.offset
    && outgoing.offset < inscription.satpoint.offset + dust
  }

  function LastBlocking(inscriptions: seq<Inscription>, outgoing: SatPoint, dust: nat): Option<Inscription> {
    if inscriptions == [] then None
    else
      var last := inscriptions[|inscriptions| - 1];
      if Blocks(last, outgoing, dust) then Some(last)
      else LastBlocking(inscriptions[..|inscriptions| - 1], outgoing, dust)
  }

  ghost predicate IsLastBlocking(inscriptions: seq<Inscription>, outgoing: SatPoint, dust: nat, k: nat) {
    && k < |inscriptions| && Blocks(inscriptions[k], outgoing, dust)
    && forall i :: k < i < |inscriptions| ==> !Blocks(inscriptions[i], outgoing, dust)
  }

  /** The reported inscription is the last one in the way. */
  lemma {:induction false} LastBlockingIsLast(inscriptions: seq<Inscription>, outgoing: SatPoint, dust: nat)
    ensures LastBlocking(inscriptions, outgoing, dust).None? <==>
      forall i :: 0 <= i < |inscriptions| ==> !Blocks(inscriptions[i], outgoing, dust)
    ensures LastBlocking(inscriptions, outgoing, dust).Some? ==>
      exists k: nat :: IsLastBlocking(inscriptions, outgoing, dust, k)
        && LastBlocking(inscriptions, outgoing, dust) == Some(inscriptions[k])
  {
    if inscriptions != [] {
      var last := |inscriptions| - 1;
      if Blocks(inscriptions[last], outgoing, dust) {
        assert IsLastBlocking(inscriptions, outgoing, dust, last);
      } else {
        LastBlockingIsLast(inscriptions[..last], outgoing, dust);
        LastOfFront(inscriptions, outgoing, dust);
      }
    }
  }

  lemma LastOfFront(inscriptions: seq<Inscription>, outgoing: SatPoint, dust: nat)
    requires inscriptions != [] && !Blocks(inscriptions[|inscriptions| - 1], outgoing, dust)
    ensures var front := inscriptions[..|inscriptions| - 1];
      forall k: nat :: IsLastBlocking(front, outgoing, dust, k) ==>
        IsLastBlocking(inscriptions, outgoing, dust, k) && inscriptions[k] == front[k]
  {
    var front := inscriptions[..|inscriptions| - 1];
    forall k: nat | IsLastBlocking(front, outgoing, dust, k)
      ensures IsLastBlocking(inscriptions, outgoing, dust, k) && inscriptions[k] == front[k]
    {
      forall i | k < i < |inscriptions|
        ensures !Blocks(inscriptions[i], outgoing, dust)
      {
        if i < |front| {
          assert inscriptions[i] == front[i];
        }
      }
    }
  }

  // ----- targets -----

  /** The least the recipient is meant to get. */
  function Minimum(target: Target, recipient: Script): nat {
    match target
    case Postage => MinimalNonDust(recipient)
    case Value(amount) => amount
    case ExactPostage(amount) => amount
  }

  /** The most the recipient may get before value is stripped. */
  function Most(target: Target): nat {
    match target
    case Postage => MAX_POSTAGE
    case Value(amount) => amount
    case ExactPostage(amount) => amount
  }

  /** What is left for the recipient when value is stripped. */
  function Remaining(target: Target): nat {
    match target
    case Postage => TARGET_POSTAGE
    case Value(amount) => amount
    case ExactPostage(amount) => amount
  }

  function Larger(a: nat, b: nat): nat {
    if a < b then b else a
  }

  function Ending(plan: Plan): Outcome {
    match plan
    case Coins(_) => Done
    case Short => Failed(NotEnoughCardinalUtxos)
    case TooLarge => Failed(ValueOverflow)
  }

  class Builder {
    const wallet: Wallet
    const change: seq<Script>
    const fee: nat -> nat
    const inscriptions: seq<Inscription>
    const locked: set<OutPoint>
    const runic: set<OutPoint>
    const outgoing: SatPoint
    const recipient: Script
    const target: Target
    var inputs: seq<OutPoint>
    var outputs: seq<TxOut>
    var unusedChange: seq<Script>
    var utxos: seq<OutPoint>

    /** `utxos` lists the wallet's outpoints in their order, `inscriptions` the inscriptions in theirs. */
    constructor (
      wallet: Wallet, utxos: seq<OutPoint>, change: seq<Script>, fee: nat -> nat, inscriptions: seq<Inscription>,
      locked: set<OutPoint>, runic: set<OutPoint>, outgoing: SatPoint, recipient: Script, target: Target)
      requires Distinct(utxos) && forall x :: x in utxos <==> x in wallet
      requires |change| == 2 && IsAddress(change[0]) && IsAddress(change[1]) && Monotone(fee)
      ensures Fresh() && this.wallet == wallet && this.change == change && this.fee == fee
      ensures this.inscriptions == inscriptions && this.locked == locked && this.runic == runic
      ensures this.outgoing == outgoing && this.recipient == recipient && this.target == target && this.utxos == utxos
    {
      this.wallet := wallet;
      this.change := change;
      this.fee := fee;
      this.inscriptions := inscriptions;
      this.locked := locked;
      this.runic := runic;
      this.outgoing := outgoing;
      this.recipient := recipient;
      this.target := target;
      this.inputs := [];
      this.outputs := [];
      this.unusedChange := change;
      this.utxos := utxos;
    }

    /** Outputs that must not be spent for their value. */
    function Barred(): set<OutPoint> {
      runic + (set i | 0 <= i < |inscriptions| :: inscriptions[i].satpoint.outpoint) + locked
    }

    /** The outputs among these that can be spent for their value: neither runic nor locked nor inscribed. */
    ghost function Cardinals(utxos: seq<OutPoint>): set<OutPoint> {
      set x | x in utxos && x !in runic && x !in locked
        && forall i :: 0 <= i < |inscriptions| ==> inscriptions[i].satpoint.outpoint != x
    }

    lemma BarredExactly(x: OutPoint)
      ensures x in Barred() <==> (x in runic || x in locked || IsInscribed(x))
    {
    }

    ghost predicate IsInscribed(x: OutPoint) {
      exists i :: 0 <= i < |inscriptions| && inscriptions[i].satpoint.outpoint == x
    }

    /** What a selection finds, said without the scan. */
    lemma SelectionByWorth(utxos: seq<OutPoint>, target: nat, under: bool)
      ensures var pick := Pick(wallet, utxos, Barred(), target, under);
        && (pick.None? <==> forall x <- utxos :: x in runic || x in locked || IsInscribed(x))
        && (pick.Some? ==>
          if under then LargestWithin(wallet, Cardinals(utxos), target, pick.value)
          else SmallestBeyond(wallet, Cardinals(utxos), target, pick.value))
    {
      forall x
        ensures x in Cardinals(utxos) <==> x in utxos && x !in Barred()
      {
        BarredExactly(x);
      }
      PickByWorth(wallet, utxos, Barred(), target, under, Cardinals(utxos));
      if Cardinals(utxos) == {} {
        forall x <- utxos
          ensures x in runic || x in locked || IsInscribed(x)
        {
          assert x !in Cardinals(utxos);
        }
      } else {
        var x :| x in Cardinals(utxos);
        assert x in utxos;
      }
    }

    ghost predicate ValidWith(inputs: seq<OutPoint>, unusedChange: seq<Script>, utxos: seq<OutPoint>) {
      && |change| == 2 && IsAddress(change[0]) && IsAddress(change[1])
      && |unusedChange| <= 2 && unusedChange == change[..|unusedChange|]
      && Distinct(utxos) && (forall x <- utxos :: x in wallet)
      && Distinct(inputs)
      && (forall x <- inputs :: x in wallet && x !in utxos)
      && (forall x <- inputs :: x == outgoing.outpoint || x !in Barred())
    }

    /** The inputs are distinct outputs of the wallet, and only the outgoing one may be barred. */
    ghost predicate Valid()
      reads this
    {
      ValidWith(inputs, unusedChange, utxos)
    }

    ghost predicate Fresh()
      reads this
    {
      && Valid() && Monotone(fee) && inputs == [] && outputs == [] && unusedChange == change
      && forall x :: x in utxos <==> x in wallet
    }

    ghost predicate AlignedWith(
      inputs: seq<OutPoint>, outputs: seq<TxOut>, unusedChange: seq<Script>, utxos: seq<OutPoint>)
    {
      && ValidWith(inputs, unusedChange, utxos) && outgoing.outpoint in inputs
      && recipient !in change && change[0] != change[1]
      && InputTotal(wallet, inputs) == OutputTotal(outputs)
      && 1 <= |outputs| <= 2 && |unusedChange| == 3 - |outputs|
      && outputs[|outputs| - 1].script == recipient
      && outputs[|outputs| - 1].value > 0
      && SatOffset(wallet, inputs, outgoing) == (if |outputs| == 2 then outputs[0].value else 0)
      && (|outputs| == 2 ==> outputs[0].script == change[1])
    }

    /** The recipient's output is last, and what is before it lets the outgoing sat arrive at its start. */
    ghost predicate Aligned()
      reads this
    {
      AlignedWith(inputs, outputs, unusedChange, utxos)
    }

    /** Coins put in front of the inputs, for the padding output. */
    lemma PaddedIsAligned(
      inputs: seq<OutPoint>, outputs: seq<TxOut>, unusedChange: seq<Script>, utxos: seq<OutPoint>, coins: seq<OutPoint>)
      requires AlignedWith(inputs, outputs, unusedChange, utxos) && |outputs| == 2
      requires Takeable(coins, utxos, Barred())
      ensures AlignedWith(Reversed(coins) + inputs, Enlarged(outputs, InputTotal(wallet, coins)), unusedChange,
        WithoutAll(utxos, coins))
    {
      ReversedKeeps(wallet, coins);
      DistinctConcat(Reversed(coins), inputs);
      WithoutAllKeeps(utxos, coins, Barred());
      InputTotalConcat(wallet, Reversed(coins), inputs);
      SatOffsetAfter(wallet, Reversed(coins), inputs, outgoing);
      OutputTotalOfTwo(outputs);
      OutputTotalOfTwo(Enlarged(outputs, InputTotal(wallet, coins)));
    }

    /** Coins put behind the inputs, for the recipient's output. */
    lemma AddedIsAligned(
      inputs: seq<OutPoint>, outputs: seq<TxOut>, unusedChange: seq<Script>, utxos: seq<OutPoint>, coins: seq<OutPoint>)
      requires AlignedWith(inputs, outputs, unusedChange, utxos)
      requires Takeable(coins, utxos, Barred())
      ensures AlignedWith(inputs + coins, Raised(outputs, InputTotal(wallet, coins)), unusedChange,
        WithoutAll(utxos, coins))
    {
      DistinctConcat(inputs, coins);
      WithoutAllKeeps(utxos, coins, Barred());
      InputTotalConcat(wallet, inputs, coins);
      SatOffsetBefore(wallet, inputs, coins, outgoing);
      SetLastKeeps(outputs, outputs[|outputs| - 1].value + InputTotal(wallet, coins));
    }

    /** What the whole pipeline ends with: the recipient's output is at position `at`, what comes
        before it is as much as comes before the outgoing sat, every other output pays a change address of its
        own, and what the outputs do not take is the fee of the signed size. */
    ghost predicate Finished(inputs: seq<OutPoint>, outputs: seq<TxOut>, at: nat) {
      && outgoing.outpoint in inputs
      && InputTotal(wallet, inputs) == OutputTotal(outputs) + fee(VSize(|inputs|, outputs))
      && |outputs| <= 3 && OneRecipient(outputs, recipient, change, at)
      && SatOffset(wallet, inputs, outgoing) == OutputTotal(outputs[..at])
    }

    // ----- stages -----

    method CalculateSatOffset() returns (offset: nat)
      requires outgoing.outpoint in inputs
      ensures offset == SatOffset(wallet, inputs, outgoing)
    {
      offset := 0;
      var todo := inputs;
      while todo[0] != outgoing.outpoint
        invariant outgoing.outpoint in todo
        invariant offset + SatOffset(wallet, todo, outgoing) == SatOffset(wallet, inputs, outgoing)
        decreases |todo|
      {
        offset := offset + Amount(wallet, todo[0]);
        todo := todo[1..];
      }
      offset := offset + outgoing.offset;
    }

    method SelectCardinalUtxo(targetValue: nat, preferUnder: bool) returns (chosen: Option<(OutPoint, nat)>)
      requires Distinct(utxos)
      modifies this`utxos
      ensures Distinct(utxos)
      ensures var pick := Pick(wallet, old(utxos), Barred(), targetValue, preferUnder);
        if pick.None? then chosen.None? && utxos == old(utxos)
        else
          && chosen == Some((pick.value, Amount(wallet, pick.value)))
          && utxos == Without(old(utxos), pick.value) && |utxos| < |old(utxos)|
      ensures chosen.None? <==> forall x <- old(utxos) :: x in runic || x in locked || IsInscribed(x)
      ensures chosen.Some? ==>
        if preferUnder then LargestWithin(wallet, Cardinals(old(utxos)), targetValue, chosen.value.0)
        else SmallestBeyond(wallet, Cardinals(old(utxos)), targetValue, chosen.value.0)
    {
      SelectionByWorth(utxos, targetValue, preferUnder);
      var best: Option<OutPoint> := None;
      var todo := utxos;
      while todo != []
        invariant Scan(wallet, todo, Barred(), targetValue, preferUnder, best)
               == Pick(wallet, utxos, Barred(), targetValue, preferUnder)
        decreases |todo|
      {
        var utxo := todo[0];
        if utxo !in Barred() {
          var current := Amount(wallet, utxo);
          var bestValue := if best.None? then current else Amount(wallet, best.value);
          var isCloser := AbsDiff(current, targetValue) < AbsDiff(bestValue, targetValue);
          var notPreferenceButCloser :=
            if preferUnder then bestValue > targetValue && isCloser else bestValue < targetValue && isCloser;
          var isPreferenceAndCloser :=
            if preferUnder then current <= targetValue && isCloser else current >= targetValue && isCloser;
          var newlyMeetsPreference :=
            if preferUnder then bestValue > targetValue && current <= targetValue
            else bestValue < targetValue && current >= targetValue;
          if best.None? || isPreferenceAndCloser || notPreferenceButCloser || newlyMeetsPreference {
            best := Some(utxo);
          }
        }
        todo := todo[1..];
      }
      if best.None? {
        return None;
      }
      WithoutKeeps(utxos, best.value);
      utxos := Without(utxos, best.value);
      return Some((best.value, Amount(wallet, best.value)));
    }

    ghost predicate Plain()
      reads this
    {
      Fresh() && recipient !in change && change[0] != change[1]
    }

    /** What is wrong with sending the outgoing sat at all. */
    function Obstacle(): Option<Error>
      requires |change| == 2
    {
      var blocking := LastBlocking(inscriptions, outgoing, MinimalNonDust(change[1]));
      if blocking.Some? then
        Some(UtxoContainsAdditionalInscriptions(outgoing, blocking.value.satpoint, blocking.value.ids))
      else if outgoing.outpoint !in wallet then Some(NotInWallet(outgoing))
      else if outgoing.offset >= wallet[outgoing.outpoint].value then
        Some(OutOfRange(outgoing, wallet[outgoing.outpoint].value - 1))
      else None
    }

    method SelectOutgoing() returns (outcome: Outcome)
      requires Plain()
      modifies this`inputs, this`outputs, this`utxos
      ensures outcome == if Obstacle().None? then Done else Failed(Obstacle().value)
      ensures outcome.Done? ==>
        && Valid() && outgoing.outpoint in wallet && outgoing.offset < wallet[outgoing.outpoint].value
        && inputs == [outgoing.outpoint]
        && outputs == [TxOut(wallet[outgoing.outpoint].value, recipient)]
        && utxos == Without(old(utxos), outgoing.outpoint)
    {
      var dustLimit := MinimalNonDust(unusedChange[|unusedChange| - 1]);
      var unseen := |inscriptions|;
      assert inscriptions[..unseen] == inscriptions;
      while unseen > 0
        invariant 0 <= unseen <= |inscriptions|
        invariant LastBlocking(inscriptions[..unseen], outgoing, dustLimit)
               == LastBlocking(inscriptions, outgoing, dustLimit)
      {
        var inscribed := inscriptions[unseen - 1];
        assert inscriptions[..unseen][..unseen - 1] == inscriptions[..unseen - 1];
        if outgoing.outpoint == inscribed.satpoint.outpoint
          && outgoing.offset != inscribed.satpoint.offset
          && outgoing.offset < inscribed.satpoint.offset + dustLimit
        {
          return Failed(UtxoContainsAdditionalInscriptions(outgoing, inscribed.satpoint, inscribed.ids));
        }
        unseen := unseen - 1;
      }
      if outgoing.outpoint !in wallet {
        return Failed(NotInWallet(outgoing));
      }
      var amount: int := wallet[outgoing.outpoint].value;
      if outgoing.offset >= amount {
        return Failed(OutOfRange(outgoing, amount - 1));
      }
      WithoutKeeps(utxos, outgoing.outpoint);
      utxos := Without(utxos, outgoing.outpoint);
      inputs := inputs + [outgoing.outpoint];
      outputs := outputs + [TxOut(amount, recipient)];
      return Done;
    }

    method AlignOutgoing()
      requires Valid() && recipient !in change && change[0] != change[1] && unusedChange == change
      requires outgoing.outpoint in wallet && outgoing.offset < wallet[outgoing.outpoint].value
      requires inputs == [outgoing.outpoint] && outputs == [TxOut(wallet[outgoing.outpoint].value, recipient)]
      modifies this`outputs, this`unusedChange
      ensures Aligned()
      ensures if outgoing.offset == 0 then outputs == old(outputs) && unusedChange == old(unusedChange)
        else
          && outputs == [TxOut(outgoing.offset, change[1]),
               TxOut(wallet[outgoing.outpoint].value - outgoing.offset, recipient)]
          && unusedChange == change[..1]
    {
      var satOffset := CalculateSatOffset();
      OutputTotalOfTwo(outputs);
      if satOffset != 0 {
        var padding := TxOut(satOffset, unusedChange[|unusedChange| - 1]);
        unusedChange := unusedChange[..|unusedChange| - 1];
        outputs := [padding] + SetLast(outputs, outputs[|outputs| - 1].value - satOffset);
        OutputTotalOfTwo(outputs);
      }
    }

    /** How far padding has come: `coins` are taken, and the plan for the rest completes the whole plan. */
    ghost predicate Padded(
      inputs0: seq<OutPoint>, outputs0: seq<TxOut>, utxos0: seq<OutPoint>, plan: Plan, coins: seq<OutPoint>, rest: Plan,
      inputs: seq<OutPoint>, outputs: seq<TxOut>, utxos: seq<OutPoint>)
    {
      && outputs0 != []
      && inputs == Reversed(coins) + inputs0
      && outputs == Enlarged(outputs0, InputTotal(wallet, coins))
      && utxos == WithoutAll(utxos0, coins)
      && plan == Prepend(coins, rest)
    }

    lemma PadStart(inputs: seq<OutPoint>, outputs: seq<TxOut>, utxos: seq<OutPoint>, plan: Plan)
      requires outputs != []
      ensures Padded(inputs, outputs, utxos, plan, [], plan, inputs, outputs, utxos)
    {
      if plan.Coins? {
        assert [] + plan.coins == plan.coins;
      }
      assert Enlarged(outputs, 0) == outputs;
    }

    lemma ConsConcat<T>(x: T, a: seq<T>, b: seq<T>)
      ensures [x] + a + b == [x] + (a + b)
    {
    }

    lemma PadStep(
      inputs0: seq<OutPoint>, outputs0: seq<TxOut>, utxos0: seq<OutPoint>, plan: Plan, coins: seq<OutPoint>, rest: Plan,
      inputs: seq<OutPoint>, outputs: seq<TxOut>, utxos: seq<OutPoint>, coin: OutPoint, next: Plan)
      requires Padded(inputs0, outputs0, utxos0, plan, coins, rest, inputs, outputs, utxos) && rest == Then(coin, next)
      ensures Padded(inputs0, outputs0, utxos0, plan, coins + [coin], next,
        [coin] + inputs, Enlarged(outputs, Amount(wallet, coin)), Without(utxos, coin))
    {
      ReversedSnoc(coins, coin);
      WithoutAllSnoc(utxos0, coins, coin);
      InputTotalSnoc(wallet, coins, coin);
      ConsConcat(coin, Reversed(coins), inputs0);
      PrependThen(coins, coin, next);
    }

    /** One turn of the loop of `PadAlignmentOutput`. */
    method PadCoin(goal: nat) returns (outcome: Outcome, ghost coin: OutPoint)
      requires outputs != [] && Distinct(utxos) && outputs[0].value < goal
      modifies this`inputs, this`outputs, this`utxos
      ensures var plan := PadPlan(wallet, old(utxos), Barred(), old(outputs)[0].value, goal);
        if outcome.Done? then
          && Distinct(utxos) && |utxos| < |old(utxos)|
          && inputs == [coin] + old(inputs)
          && outputs == Enlarged(old(outputs), Amount(wallet, coin))
          && utxos == Without(old(utxos), coin)
          && plan == Then(coin, PadPlan(wallet, utxos, Barred(), outputs[0].value, goal))
          && LargestWithin(wallet, Cardinals(old(utxos)), goal - old(outputs)[0].value, coin)
        else outcome == Failed(NotEnoughCardinalUtxos) && plan == Short
    {
      coin := outgoing.outpoint;
      var value := outputs[0].value;
      ghost var before := utxos;
      var chosen := SelectCardinalUtxo(goal - value, true);
      if chosen.None? {
        return Failed(NotEnoughCardinalUtxos), coin;
      }
      var (utxo, size) := chosen.value;
      assert LargestWithin(wallet, Cardinals(before), goal - value, utxo);
      PadPlanOpens(wallet, before, Barred(), value, goal, utxo);
      inputs := [utxo] + inputs;
      outputs := Enlarged(outputs, size);
      assert outputs[0].value == value + size;
      return Done, utxo;
    }

    method Pad(goal: nat, ghost plan: Plan) returns (outcome: Outcome)
      requires outputs != [] && Distinct(utxos)
      requires plan == PadPlan(wallet, utxos, Barred(), outputs[0].value, goal)
      modifies this`inputs, this`outputs, this`utxos
      ensures outcome == Ending(plan)
      ensures outcome.Done? ==>
        && inputs == Reversed(plan.coins) + old(inputs)
        && utxos == WithoutAll(old(utxos), plan.coins)
        && outputs == Enlarged(old(outputs), InputTotal(wallet, plan.coins))
    {
      ghost var coins: seq<OutPoint>, rest := [], plan;
      ghost var inputs0, outputs0, utxos0 := inputs, outputs, utxos;
      PadStart(inputs, outputs, utxos, plan);
      while outputs[0].value < goal
        invariant Distinct(utxos)
        invariant Padded(inputs0, outputs0, utxos0, plan, coins, rest, inputs, outputs, utxos)
        invariant rest == PadPlan(wallet, utxos, Barred(), outputs[0].value, goal)
        decreases |utxos|
      {
        ghost var inputs1, outputs1, utxos1 := inputs, outputs, utxos;
        ghost var coin;
        outcome, coin := PadCoin(goal);
        if !outcome.Done? {
          return;
        }
        ghost var next := PadPlan(wallet, utxos, Barred(), outputs[0].value, goal);
        PadStep(inputs0, outputs0, utxos0, plan, coins, rest, inputs1, outputs1, utxos1, coin, next);
        coins, rest := coins + [coin], next;
      }
      assert coins + [] == coins;
      return Done;
    }

    /** The plan is to bring the padding output, if there is one, up to the dust limit of the other change address. */
    function PaddingPlan(outputs: seq<TxOut>, utxos: seq<OutPoint>): Plan
      requires |change| == 2 && outputs != []
    {
      PadPlan(wallet, utxos, Barred(), outputs[0].value, if |outputs| == 2 then MinimalNonDust(change[0]) else 0)
    }

    method PadAlignmentOutput() returns (outcome: Outcome)
      requires Aligned()
      modifies this`inputs, this`outputs, this`utxos
      ensures var plan := PaddingPlan(old(outputs), old(utxos));
        && outcome == Ending(plan)
        && (outcome.Done? ==>
          && Aligned()
          && inputs == Reversed(plan.coins) + old(inputs)
          && utxos == WithoutAll(old(utxos), plan.coins)
          && outputs == Enlarged(old(outputs), InputTotal(wallet, plan.coins)))
    {
      ghost var plan := PaddingPlan(outputs, utxos);
      if outputs[0].script == recipient {
        assert Enlarged(outputs, 0) == outputs;
        return Done;
      }
      var dustLimit := MinimalNonDust(unusedChange[|unusedChange| - 1]);
      ghost var inputs0, outputs0, utxos0 := inputs, outputs, utxos;
      outcome := Pad(dustLimit, plan);
      if outcome.Done? {
        PadPlanTakeable(wallet, utxos0, Barred(), outputs0[0].value, dustLimit);
        PaddedIsAligned(inputs0, outputs0, unusedChange, utxos0, plan.coins);
      }
    }

    // ----- adding value -----

    ghost predicate Added(
      inputs0: seq<OutPoint>, outputs0: seq<TxOut>, utxos0: seq<OutPoint>, plan: Plan, extra: nat, coins: seq<OutPoint>,
      inputs: seq<OutPoint>, outputs: seq<TxOut>, utxos: seq<OutPoint>, deficit: nat)
    {
      && outputs0 != []
      && inputs == inputs0 + coins
      && outputs == Raised(outputs0, InputTotal(wallet, coins))
      && utxos == WithoutAll(utxos0, coins)
      && plan == Prepend(coins, AddPlan(wallet, utxos, Barred(), deficit, extra))
    }

    lemma AddStart(inputs: seq<OutPoint>, outputs: seq<TxOut>, utxos: seq<OutPoint>, extra: nat, deficit: nat)
      requires outputs != []
      ensures Added(inputs, outputs, utxos, AddPlan(wallet, utxos, Barred(), deficit, extra), extra, [],
        inputs, outputs, utxos, deficit)
    {
      var plan := AddPlan(wallet, utxos, Barred(), deficit, extra);
      if plan.Coins? {
        assert [] + plan.coins == plan.coins;
      }
      SplitLast(outputs);
      assert Raised(outputs, 0) == outputs;
    }

    lemma AddStep(
      inputs0: seq<OutPoint>, outputs0: seq<TxOut>, utxos0: seq<OutPoint>, plan: Plan, extra: nat, coins: seq<OutPoint>,
      inputs: seq<OutPoint>, outputs: seq<TxOut>, utxos: seq<OutPoint>, deficit: nat, coin: OutPoint, less: nat)
      requires Added(inputs0, outputs0, utxos0, plan, extra, coins, inputs, outputs, utxos, deficit)
      requires 0 < deficit && deficit + extra <= U64_MAX
      requires Pick(wallet, utxos, Barred(), deficit + extra, false) == Some(coin) && extra <= Amount(wallet, coin)
      requires less == if Amount(wallet, coin) - extra > deficit then 0 else deficit - (Amount(wallet, coin) - extra)
      ensures Added(inputs0, outputs0, utxos0, plan, extra, coins + [coin],
        inputs + [coin], Raised(outputs, Amount(wallet, coin)), Without(utxos, coin), less)
    {
      WithoutAllSnoc(utxos0, coins, coin);
      InputTotalSnoc(wallet, coins, coin);
      assert Raised(outputs0, InputTotal(wallet, coins + [coin])) == Raised(outputs, Amount(wallet, coin));
      assert inputs0 + (coins + [coin]) == inputs + [coin];
      AddPlanStep(wallet, utxos, Barred(), deficit, extra, coin, less, coins, plan);
    }

    /** How the adding of coins ends. */
    lemma AddEnd(
      inputs0: seq<OutPoint>, outputs0: seq<TxOut>, utxos0: seq<OutPoint>, plan: Plan, extra: nat, coins: seq<OutPoint>,
      inputs: seq<OutPoint>, outputs: seq<TxOut>, utxos: seq<OutPoint>, deficit: nat)
      requires Added(inputs0, outputs0, utxos0, plan, extra, coins, inputs, outputs, utxos, deficit)
      ensures deficit == 0 ==> plan == Coins(coins)
      ensures deficit > 0 && deficit + extra > U64_MAX ==> plan == TooLarge
      ensures deficit > 0 && deficit + extra <= U64_MAX
        && (var pick := Pick(wallet, utxos, Barred(), deficit + extra, false);
          pick.None? || Amount(wallet, pick.value) < extra)
        ==> plan == Short
    {
      assert coins + [] == coins;
    }

    /** One turn of the loop of `AddValue`. */
    method AddCoin(deficit: nat, additionalFee: nat) returns (outcome: Outcome, less: nat, ghost coin: OutPoint)
      requires outputs != [] && Distinct(utxos) && deficit > 0
      modifies this`inputs, this`outputs, this`utxos
      ensures deficit + additionalFee > U64_MAX ==> outcome == Failed(ValueOverflow)
      ensures deficit + additionalFee <= U64_MAX ==>
        var pick := Pick(wallet, old(utxos), Barred(), deficit + additionalFee, false);
        if pick.None? || Amount(wallet, pick.value) < additionalFee then outcome == Failed(NotEnoughCardinalUtxos)
        else
          var benefit := Amount(wallet, pick.value) - additionalFee;
          && outcome == Done && pick == Some(coin)
          && less == (if benefit > deficit then 0 else deficit - benefit)
          && Distinct(utxos) && |utxos| < |old(utxos)|
          && inputs == old(inputs) + [coin]
          && outputs == Raised(old(outputs), Amount(wallet, coin))
          && utxos == Without(old(utxos), coin)
          && SmallestBeyond(wallet, Cardinals(old(utxos)), deficit + additionalFee, coin)
    {
      less, coin := deficit, outgoing.outpoint;
      var needed := deficit + additionalFee;
      if needed > U64_MAX {
        return Failed(ValueOverflow), less, coin;
      }
      var chosen := SelectCardinalUtxo(needed, false);
      if chosen.None? || chosen.value.1 < additionalFee {
        return Failed(NotEnoughCardinalUtxos), less, coin;
      }
      var (utxo, value) := chosen.value;
      var benefit := value - additionalFee;
      inputs := inputs + [utxo];
      outputs := Raised(outputs, value);
      less := if benefit > deficit then 0 else deficit - benefit;
      return Done, less, utxo;
    }

    /** The loop of `AddValue`. */
    method Add(shortfall: nat, additionalFee: nat, ghost plan: Plan) returns (outcome: Outcome)
      requires outputs != [] && Distinct(utxos)
      requires plan == AddPlan(wallet, utxos, Barred(), shortfall, additionalFee)
      modifies this`inputs, this`outputs, this`utxos
      ensures outcome == Ending(plan)
      ensures outcome.Done? ==>
        && inputs == old(inputs) + plan.coins
        && utxos == WithoutAll(old(utxos), plan.coins)
        && outputs == Raised(old(outputs), InputTotal(wallet, plan.coins))
    {
      var deficit: nat := shortfall;
      ghost var coins: seq<OutPoint> := [];
      ghost var inputs0, outputs0, utxos0 := inputs, outputs, utxos;
      AddStart(inputs, outputs, utxos, additionalFee, deficit);
      while deficit > 0
        invariant Distinct(utxos)
        invariant Added(inputs0, outputs0, utxos0, plan, additionalFee, coins, inputs, outputs, utxos, deficit)
        decreases |utxos|
      {
        AddEnd(inputs0, outputs0, utxos0, plan, additionalFee, coins, inputs, outputs, utxos, deficit);
        ghost var inputs1, outputs1, utxos1 := inputs, outputs, utxos;
        var less;
        ghost var coin;
        outcome, less, coin := AddCoin(deficit, additionalFee);
        if !outcome.Done? {
          return;
        }
        AddStep(inputs0, outputs0, utxos0, plan, additionalFee, coins, inputs1, outputs1, utxos1, deficit, coin, less);
        coins, deficit := coins + [coin], less;
      }
      AddEnd(inputs0, outputs0, utxos0, plan, additionalFee, coins, inputs, outputs, utxos, deficit);
      return Done;
    }

    /** What the recipient's output must hold before the fee is deducted. */
    function Needed(inputs: seq<OutPoint>, outputs: seq<TxOut>): nat {
      Minimum(target, recipient) + fee(VSize(|inputs|, outputs))
    }

    /** Which coins, if any, bring the recipient's output up to what it needs. */
    function AddingPlan(inputs: seq<OutPoint>, outputs: seq<TxOut>, utxos: seq<OutPoint>): Plan
      requires outputs != []
    {
      var last := outputs[|outputs| - 1].value;
      if Needed(inputs, outputs) > U64_MAX then TooLarge
      else if Needed(inputs, outputs) <= last then Coins([])
      else AddPlan(wallet, utxos, Barred(), Needed(inputs, outputs) - last, fee(ADDITIONAL_INPUT_VBYTES))
    }

    lemma AddingTakeable(inputs: seq<OutPoint>, outputs: seq<TxOut>, utxos: seq<OutPoint>)
      requires outputs != [] && Distinct(utxos) && AddingPlan(inputs, outputs, utxos).Coins?
      ensures Takeable(AddingPlan(inputs, outputs, utxos).coins, utxos, Barred())
    {
      PlanIsTakeable(utxos, Barred(), Needed(inputs, outputs), outputs[|outputs| - 1].value);
    }

    lemma PlanIsTakeable(utxos: seq<OutPoint>, barred: set<OutPoint>, needed: nat, last: nat)
      requires Distinct(utxos)
      ensures Takeable([], utxos, barred)
      ensures needed > last ==>
        var plan := AddPlan(wallet, utxos, barred, needed - last, fee(ADDITIONAL_INPUT_VBYTES));
        plan.Coins? ==> Takeable(plan.coins, utxos, barred)
    {
      if needed > last {
        var deficit, extra := needed - last, fee(ADDITIONAL_INPUT_VBYTES);
        if AddPlan(wallet, utxos, barred, deficit, extra).Coins? {
          AddPlanTakeable(wallet, utxos, barred, deficit, extra);
        }
      }
    }

    /** The chosen coins leave the recipient with the minimum, the estimated fee and the budget of every coin. */
    lemma AddingCovers(inputs: seq<OutPoint>, outputs: seq<TxOut>, utxos: seq<OutPoint>)
      requires outputs != [] && AddingPlan(inputs, outputs, utxos).Coins?
      ensures var coins := AddingPlan(inputs, outputs, utxos).coins;
        outputs[|outputs| - 1].value + InputTotal(wallet, coins)
        >= Needed(inputs, outputs) + fee(ADDITIONAL_INPUT_VBYTES) * |coins|
    {
      var last, needed := outputs[|outputs| - 1].value, Needed(inputs, outputs);
      if needed > last {
        AddPlanCovers(wallet, utxos, Barred(), needed - last, fee(ADDITIONAL_INPUT_VBYTES));
      }
    }

    /** The plan, by the total that is needed. */
    lemma PlanForTotal(inputs: seq<OutPoint>, outputs: seq<TxOut>, utxos: seq<OutPoint>, total: nat)
      requires outputs != [] && total == Needed(inputs, outputs)
      ensures var plan, last := AddingPlan(inputs, outputs, utxos), outputs[|outputs| - 1].value;
        if total > U64_MAX then plan == TooLarge
        else if total < last then plan == Coins([])
        else plan == AddPlan(wallet, utxos, Barred(), total - last, fee(ADDITIONAL_INPUT_VBYTES))
    {
    }

    lemma AddingIsAligned(
      inputs: seq<OutPoint>, outputs: seq<TxOut>, unusedChange: seq<Script>, utxos: seq<OutPoint>)
      requires AlignedWith(inputs, outputs, unusedChange, utxos) && AddingPlan(inputs, outputs, utxos).Coins?
      ensures var coins := AddingPlan(inputs, outputs, utxos).coins;
        AlignedWith(inputs + coins, Raised(outputs, InputTotal(wallet, coins)), unusedChange, WithoutAll(utxos, coins))
    {
      AddingTakeable(inputs, outputs, utxos);
      AddedIsAligned(inputs, outputs, unusedChange, utxos, AddingPlan(inputs, outputs, utxos).coins);
    }

    method NeededTotal() returns (total: nat)
      requires outputs != [] && outputs[|outputs| - 1].script == recipient
      ensures total == Needed(inputs, outputs)
    {
      var minValue := match target
        case Postage => MinimalNonDust(outputs[|outputs| - 1].script)
        case Value(amount) => amount
        case ExactPostage(amount) => amount;
      total := minValue + fee(VSize(|inputs|, outputs));
    }

    lemma AddNothing(inputs: seq<OutPoint>, outputs: seq<TxOut>, utxos: seq<OutPoint>)
      requires outputs != []
      ensures inputs + [] == inputs && WithoutAll(utxos, []) == utxos
      ensures Raised(outputs, InputTotal(wallet, [])) == outputs
    {
      SplitLast(outputs);
    }

    method AddCoins() returns (outcome: Outcome)
      requires outputs != [] && outputs[|outputs| - 1].script == recipient && Distinct(utxos)
      modifies this`inputs, this`outputs, this`utxos
      ensures var plan := AddingPlan(old(inputs), old(outputs), old(utxos));
        && outcome == Ending(plan)
        && (outcome.Done? ==>
          && inputs == old(inputs) + plan.coins
          && utxos == WithoutAll(old(utxos), plan.coins)
          && outputs == Raised(old(outputs), InputTotal(wallet, plan.coins)))
    {
      var total := NeededTotal();
      ghost var plan := AddingPlan(inputs, outputs, utxos);
      PlanForTotal(inputs, outputs, utxos, total);
      if total > U64_MAX {
        return Failed(ValueOverflow);
      }
      var last := outputs[|outputs| - 1].value;
      if total < last {
        AddNothing(inputs, outputs, utxos);
        return Done;
      }
      outcome := Add(total - last, fee(ADDITIONAL_INPUT_VBYTES), plan);
    }

    method AddValue() returns (outcome: Outcome)
      requires Aligned()
      modifies this`inputs, this`outputs, this`utxos
      ensures var plan := AddingPlan(old(inputs), old(outputs), old(utxos));
        && outcome == Ending(plan)
        && (outcome.Done? ==>
          && Aligned()
          && inputs == old(inputs) + plan.coins
          && utxos == WithoutAll(old(utxos), plan.coins)
          && outputs == Raised(old(outputs), InputTotal(wallet, plan.coins)))
    {
      ghost var inputs0, outputs0, utxos0 := inputs, outputs, utxos;
      outcome := AddCoins();
      if outcome.Done? {
        AddingIsAligned(inputs0, outputs0, unusedChange, utxos0);
      }
    }

    // ----- stripping value and paying the fee -----

    /** Whether so much is left for the recipient that an output for the excess pays off. */
    predicate Excessive(value: nat, inputs: seq<OutPoint>, outputs: seq<TxOut>, dust: nat) {
      var vsize := VSize(|inputs|, outputs);
      && value >= fee(vsize) + Most(target) + 1
      && value - Remaining(target) > dust + fee(vsize + ADDITIONAL_OUTPUT_VBYTES)
    }

    /** The change address that the excess goes to. */
    function Spare(outputs: seq<TxOut>): Script
      requires |change| == 2
    {
      if |outputs| == 2 then change[0] else change[1]
    }

    function Stripped(inputs: seq<OutPoint>, outputs: seq<TxOut>): seq<TxOut>
      requires |change| == 2 && outputs != []
    {
      var value := outputs[|outputs| - 1].value;
      if Excessive(value, inputs, outputs, MinimalNonDust(Spare(outputs))) then
        SetLast(outputs, Remaining(target)) + [TxOut(value - Remaining(target), Spare(outputs))]
      else
        outputs
    }

    method StripValue()
      requires Aligned()
      modifies this`outputs, this`unusedChange
      ensures outputs == Stripped(old(inputs), old(outputs))
      ensures unusedChange == if outputs == old(outputs) then old(unusedChange) else change[..|old(unusedChange)| - 1]
    {
      var satOffset := CalculateSatOffset();
      OutputTotalOfTwo(outputs);
      var value := OutputTotal(outputs) - satOffset;
      var due := fee(VSize(|inputs|, outputs));
      if value >= due {
        var excess := value - due;
        var (max, kept) := match target
          case Postage => (MAX_POSTAGE, TARGET_POSTAGE)
          case Value(amount) => (amount, amount)
          case ExactPostage(amount) => (amount, amount);
        if excess > max
          && value - kept
             > MinimalNonDust(unusedChange[|unusedChange| - 1])
               + fee(VSize(|inputs|, outputs) + ADDITIONAL_OUTPUT_VBYTES)
        {
          outputs := SetLast(outputs, kept) + [TxOut(value - kept, unusedChange[|unusedChange| - 1])];
          unusedChange := unusedChange[..|unusedChange| - 1];
        }
      }
    }

    method DeductFee() returns (outcome: Outcome)
      requires outgoing.outpoint in inputs && outputs != []
      modifies this`outputs
      ensures outcome == if Payable(inputs, old(outputs)) then Done else Panic
      ensures outputs == if outcome.Done? then FeePaid(inputs, old(outputs)) else old(outputs)
    {
      var satOffset := CalculateSatOffset();
      var due := fee(VSize(|inputs|, outputs));
      var total := OutputTotal(outputs);
      if total < due || total - due <= satOffset || outputs[|outputs| - 1].value < due {
        return Panic;
      }
      outputs := SetLast(outputs, outputs[|outputs| - 1].value - due);
      return Done;
    }

    // ----- the whole pipeline -----

    function FeeDue(inputs: seq<OutPoint>, outputs: seq<TxOut>): nat {
      fee(VSize(|inputs|, outputs))
    }

    function FeePaid(inputs: seq<OutPoint>, outputs: seq<TxOut>): seq<TxOut>
      requires outputs != [] && outputs[|outputs| - 1].value >= FeeDue(inputs, outputs)
    {
      SetLast(outputs, outputs[|outputs| - 1].value - FeeDue(inputs, outputs))
    }

    /** At a whole rate the last output holds the minimum and the fee, but for half a virtual byte for each coin
        added. */
    ghost predicate Covered(inputs: seq<OutPoint>, outputs: seq<TxOut>, added: nat)
      requires outputs != []
    {
      forall rate: nat :: AtRate(fee, rate) && |inputs| < 253 ==>
        outputs[|outputs| - 1].value + Shortfall(rate, added) >= Minimum(target, recipient) + FeeDue(inputs, outputs)
    }

    /** What each output is left with. */
    ghost predicate Settled(inputs: seq<OutPoint>, outputs: seq<TxOut>, at: nat, added: nat, stripped: bool)
      requires |change| == 2
    {
      if stripped then
        && |outputs| == at + 2
        && outputs[at].value == Remaining(target)
        && (|outputs[at + 1].script| <= 34 ==> outputs[at + 1].value > MinimalNonDust(outputs[at + 1].script))
      else
        && |outputs| == at + 1
        && !Excessive(outputs[at].value + FeeDue(inputs, outputs), inputs, outputs, MinimalNonDust(Spare(outputs)))
        && (forall rate: nat :: AtRate(fee, rate) && |inputs| < 253 ==>
          outputs[at].value + Shortfall(rate, added) >= Minimum(target, recipient))
    }

    /** Without stripping, the recipient's output pays the fee. */
    lemma UnstrippedEnds(
      inputs: seq<OutPoint>, outputs: seq<TxOut>, unusedChange: seq<Script>, utxos: seq<OutPoint>)
      requires AlignedWith(inputs, outputs, unusedChange, utxos)
      requires outputs[|outputs| - 1].value >= FeeDue(inputs, outputs)
      ensures Finished(inputs, FeePaid(inputs, outputs), |outputs| - 1)
      ensures FeeDue(inputs, FeePaid(inputs, outputs)) == FeeDue(inputs, outputs)
    {
      var last := outputs[|outputs| - 1].value - FeeDue(inputs, outputs);
      SetLastKeeps(outputs, last);
      OutputTotalOfTwo(SetLast(outputs, last));
    }

    lemma UnstrippedFinishes(
      inputs: seq<OutPoint>, outputs: seq<TxOut>, unusedChange: seq<Script>, utxos: seq<OutPoint>, added: nat)
      requires AlignedWith(inputs, outputs, unusedChange, utxos) && Covered(inputs, outputs, added)
      requires outputs[|outputs| - 1].value >= FeeDue(inputs, outputs)
      requires !Excessive(outputs[|outputs| - 1].value, inputs, outputs, MinimalNonDust(Spare(outputs)))
      ensures Finished(inputs, FeePaid(inputs, outputs), |outputs| - 1)
      ensures Settled(inputs, FeePaid(inputs, outputs), |outputs| - 1, added, false)
    {
      UnstrippedEnds(inputs, outputs, unusedChange, utxos);
      SetLastKeeps(outputs, outputs[|outputs| - 1].value - FeeDue(inputs, outputs));
    }

    /** The output for the excess has more than its dust limit left when the fee is paid. */
    lemma ExcessPaysFee(inputs: seq<OutPoint>, outputs: seq<TxOut>)
      requires |change| == 2 && 1 <= |outputs| <= 2 && |Spare(outputs)| <= 34 && Monotone(fee)
      requires Excessive(outputs[|outputs| - 1].value, inputs, outputs, MinimalNonDust(Spare(outputs)))
      ensures outputs[|outputs| - 1].value - Remaining(target)
        > MinimalNonDust(Spare(outputs)) + FeeDue(inputs, Stripped(inputs, outputs))
    {
      var change := TxOut(outputs[|outputs| - 1].value - Remaining(target), Spare(outputs));
      SetLastKeeps(outputs, Remaining(target));
      OneMoreOutput(|inputs|, SetLast(outputs, Remaining(target)), change);
      assert NoDearer(
        fee, VSize(|inputs|, Stripped(inputs, outputs)), VSize(|inputs|, outputs) + ADDITIONAL_OUTPUT_VBYTES);
    }

    lemma StrippedTotals(inputs: seq<OutPoint>, outputs: seq<TxOut>)
      requires |change| == 2 && outputs != []
      requires Excessive(outputs[|outputs| - 1].value, inputs, outputs, MinimalNonDust(Spare(outputs)))
      ensures var stripped := Stripped(inputs, outputs);
        && |stripped| == |outputs| + 1 && OutputTotal(stripped) == OutputTotal(outputs)
        && stripped[|outputs|].value == outputs[|outputs| - 1].value - Remaining(target)
    {
      SetLastKeeps(outputs, Remaining(target));
      OutputTotalSnoc(SetLast(outputs, Remaining(target)), Stripped(inputs, outputs)[|outputs|]);
    }

    /** With stripping, the recipient gets exactly the target, and the change pays the fee and stays above dust. */
    lemma StrippedSettles(
      inputs: seq<OutPoint>, outputs: seq<TxOut>, unusedChange: seq<Script>, utxos: seq<OutPoint>, added: nat)
      requires AlignedWith(inputs, outputs, unusedChange, utxos) && Monotone(fee)
      requires Excessive(outputs[|outputs| - 1].value, inputs, outputs, MinimalNonDust(Spare(outputs)))
      requires Stripped(inputs, outputs)[|outputs|].value >= FeeDue(inputs, Stripped(inputs, outputs))
      ensures Settled(inputs, FeePaid(inputs, Stripped(inputs, outputs)), |outputs| - 1, added, true)
    {
      if |Spare(outputs)| <= 34 {
        ExcessPaysFee(inputs, outputs);
      }
    }

    lemma StrippedFinishes(
      inputs: seq<OutPoint>, outputs: seq<TxOut>, unusedChange: seq<Script>, utxos: seq<OutPoint>)
      requires AlignedWith(inputs, outputs, unusedChange, utxos)
      requires Excessive(outputs[|outputs| - 1].value, inputs, outputs, MinimalNonDust(Spare(outputs)))
      requires Stripped(inputs, outputs)[|outputs|].value >= FeeDue(inputs, Stripped(inputs, outputs))
      ensures Finished(inputs, FeePaid(inputs, Stripped(inputs, outputs)), |outputs| - 1)
    {
      var stripped := Stripped(inputs, outputs);
      StrippedTotals(inputs, outputs);
      var last := stripped[|outputs|].value - FeeDue(inputs, stripped);
      SetLastKeeps(stripped, last);
      OutputTotalOfTwo(outputs);
      assert SetLast(stripped, last)[..|outputs| - 1] == outputs[..|outputs| - 1];
    }

    /** Whether `DeductFee` goes through. */
    ghost predicate Payable(inputs: seq<OutPoint>, outputs: seq<TxOut>) {
      && outgoing.outpoint in inputs && outputs != []
      && OutputTotal(outputs) > SatOffset(wallet, inputs, outgoing) + FeeDue(inputs, outputs)
      && outputs[|outputs| - 1].value >= FeeDue(inputs, outputs)
    }

    lemma UnstrippedIsPayable(
      inputs: seq<OutPoint>, outputs: seq<TxOut>, unusedChange: seq<Script>, utxos: seq<OutPoint>)
      requires AlignedWith(inputs, outputs, unusedChange, utxos)
      ensures Payable(inputs, outputs) <==> outputs[|outputs| - 1].value > FeeDue(inputs, outputs)
    {
      OutputTotalOfTwo(outputs);
    }

    /** At a whole rate the recipient is short of its minimum by at most half a virtual byte for each coin added. */
    lemma MinimumNearlyKept(inputs: seq<OutPoint>, outputs: seq<TxOut>, utxos: seq<OutPoint>)
      requires outputs != [] && Distinct(utxos) && AddingPlan(inputs, outputs, utxos).Coins?
      ensures var coins := AddingPlan(inputs, outputs, utxos).coins;
        Covered(inputs + coins, Raised(outputs, InputTotal(wallet, coins)), |coins|)
    {
      var coins := AddingPlan(inputs, outputs, utxos).coins;
      var k := |coins|;
      AddingCovers(inputs, outputs, utxos);
      SetLastKeeps(outputs, outputs[|outputs| - 1].value + InputTotal(wallet, coins));
      forall rate: nat | AtRate(fee, rate) && |inputs| + k < 253
        ensures var raised := Raised(outputs, InputTotal(wallet, coins));
          raised[|raised| - 1].value + Shortfall(rate, k) >= Minimum(target, recipient) + FeeDue(inputs + coins, raised)
      {
        MoreInputs(|inputs|, k, outputs);
        WholeRate(fee, rate, VSize(|inputs|, outputs), k, VSize(|inputs| + k, outputs));
      }
    }

    /** What is wrong with the request before any output is chosen. */
    function Refusal(): Option<Error>
      requires |change| == 2
    {
      if change[0] == change[1] then Some(DuplicateAddress(change[0]))
      else if IsOpReturn(recipient) then None
      else if !IsAddress(recipient) then Some(InvalidAddress)
      else if recipient in change then Some(DuplicateAddress(recipient))
      else if target.Postage? || target.amount >= MinimalNonDust(recipient) then None
      else Some(Dust(target.amount, MinimalNonDust(recipient)))
    }

    /** The checks before the first stage. */
    method Check() returns (outcome: Outcome)
      requires Fresh()
      ensures outcome == if Refusal().None? then Done else Failed(Refusal().value)
      ensures outcome.Done? ==> recipient !in change && change[0] != change[1]
    {
      if change[0] == change[1] {
        return Failed(DuplicateAddress(change[0]));
      }
      if !IsOpReturn(recipient) {
        if !IsAddress(recipient) {
          return Failed(InvalidAddress);
        }
        if recipient in change {
          return Failed(DuplicateAddress(recipient));
        }
        if !target.Postage? {
          var dustValue := MinimalNonDust(recipient);
          if target.amount < dustValue {
            return Failed(Dust(target.amount, dustValue));
          }
        }
      }
      return Done;
    }

    // ----- the final checks -----

    /** What the recipient must get at least, and may get at most, to pass. */
    function Low(): nat {
      if target.Value? then target.amount else 0
    }

    function High(): nat
      requires |change| == 2
    {
      var slop := fee(ADDITIONAL_OUTPUT_VBYTES);
      match target
      case Postage => MAX_POSTAGE + slop
      case ExactPostage(amount) => amount + slop
      case Value(amount) => amount + Larger(MinimalNonDust(change[0]), MinimalNonDust(change[1])) + slop
    }

    /** The assertions of the program, in their order. */
    ghost predicate Passes(inputs: seq<OutPoint>, outputs: seq<TxOut>)
      requires |change| == 2 && outgoing.outpoint in inputs
    {
      var offset := SatOffset(wallet, inputs, outgoing);
      && outgoing.outpoint in wallet && outgoing.offset < wallet[outgoing.outpoint].value
      && Spends(inputs, outgoing.outpoint) == 1
      && FirstEnding(outputs, 0, offset).Some? && FirstEnding(outputs, 0, offset).value.script == recipient
      && Payments(outputs, recipient) == 1
      && Payments(outputs, change[0]) <= 1 && Payments(outputs, change[1]) <= 1
      && WellPlaced(outputs, Terms(recipient, change, Low(), High()), 0, offset)
      && InputTotal(wallet, inputs) == OutputTotal(outputs) + FeeDue(inputs, outputs)
      && NoDust(outputs)
    }

    method Build() returns (outcome: Outcome)
      requires |change| == 2 && outgoing.outpoint in inputs
      ensures outcome == if Passes(inputs, outputs) then Done else Panic
    {
      var offset := CalculateSatOffset();
      var spends := CountSpends(inputs, outgoing.outpoint);
      if outgoing.outpoint !in wallet || outgoing.offset >= wallet[outgoing.outpoint].value || spends != 1 {
        return Panic;
      }
      var first := FindEnding(outputs, offset);
      if first.None? || first.value.script != recipient {
        return Panic;
      }
      var toRecipient := CountPayments(outputs, recipient);
      var toFirst := CountPayments(outputs, change[0]);
      var toSecond := CountPayments(outputs, change[1]);
      if toRecipient != 1 || toFirst > 1 || toSecond > 1 {
        return Panic;
      }
      var placed := CheckPlaces(outputs, Terms(recipient, change, Low(), High()), offset);
      var actual := ActualFee(wallet, inputs, outputs);
      var fine := CheckDust(outputs);
      return if placed && actual == Some(fee(VSize(|inputs|, outputs))) && fine then Done else Panic;
    }

    /** Of all the assertions only three can fail on what the stages leave: the recipient's output is worth
        something, it is within its bounds, and no output is dust. */
    lemma PassesExactly(inputs: seq<OutPoint>, outputs: seq<TxOut>, at: nat)
      requires |change| == 2 && Distinct(inputs) && Finished(inputs, outputs, at)
      requires outgoing.outpoint in wallet && outgoing.offset < wallet[outgoing.outpoint].value
      ensures Passes(inputs, outputs) <==>
        outputs[at].value > 0 && Low() <= outputs[at].value <= High() && NoDust(outputs)
    {
      var offset := SatOffset(wallet, inputs, outgoing);
      SpentOnce(inputs, outgoing.outpoint);
      EndsWithRecipient(outputs, recipient, at, 0, offset);
      PaidAtMostOnce(outputs, recipient);
      PaidAtMostOnce(outputs, change[0]);
      PaidAtMostOnce(outputs, change[1]);
      PlacedExactly(outputs, Terms(recipient, change, Low(), High()), at, 0, offset);
    }

    // ----- which requests get a transaction -----

    /** The padding output is no dust for the address that it pays. */
    predicate PaddingFine(outputs: seq<TxOut>)
      requires |change| == 2
    {
      |outputs| == 2 ==> outputs[0].value >= MinimalNonDust(change[1])
    }

    /** Whether a transaction is returned, told after `AddValue`. */
    predicate Returns(inputs: seq<OutPoint>, outputs: seq<TxOut>)
      requires |change| == 2 && outputs != []
    {
      var value, due := outputs[|outputs| - 1].value, FeeDue(inputs, outputs);
      var dust := MinimalNonDust(Spare(outputs));
      && PaddingFine(outputs)
      && if Excessive(value, inputs, outputs, dust) then
           && Remaining(target) > 0
           && value >= Remaining(target) + dust + FeeDue(inputs, Stripped(inputs, outputs))
         else
           && value > due && value >= due + MinimalNonDust(recipient)
           && due + Low() <= value <= due + High()
    }

    /** What the last stages and the checks make of the outputs after `AddValue`. */
    ghost predicate Completes(inputs: seq<OutPoint>, outputs: seq<TxOut>)
      requires |change| == 2 && outputs != [] && outgoing.outpoint in inputs
    {
      var stripped := Stripped(inputs, outputs);
      Payable(inputs, stripped) && Passes(inputs, FeePaid(inputs, stripped))
    }

    lemma UnstrippedPays(
      inputs: seq<OutPoint>, outputs: seq<TxOut>, unusedChange: seq<Script>, utxos: seq<OutPoint>, left: nat)
      requires AlignedWith(inputs, outputs, unusedChange, utxos)
      requires outgoing.outpoint in wallet && outgoing.offset < wallet[outgoing.outpoint].value
      requires left > 0 && outputs[|outputs| - 1].value == FeeDue(inputs, outputs) + left
      ensures Passes(inputs, FeePaid(inputs, outputs)) <==>
        PaddingFine(outputs) && left >= MinimalNonDust(recipient) && Low() <= left <= High()
    {
      var at, paid := |outputs| - 1, FeePaid(inputs, outputs);
      UnstrippedEnds(inputs, outputs, unusedChange, utxos);
      PassesExactly(inputs, paid, at);
      assert |paid| == 2 ==> paid[0] == outputs[0];
      assert paid[at] == TxOut(left, recipient);
      NoDustOf(paid);
    }

    lemma UnstrippedReturns(
      inputs: seq<OutPoint>, outputs: seq<TxOut>, unusedChange: seq<Script>, utxos: seq<OutPoint>)
      requires AlignedWith(inputs, outputs, unusedChange, utxos)
      requires outgoing.outpoint in wallet && outgoing.offset < wallet[outgoing.outpoint].value
      requires !Excessive(outputs[|outputs| - 1].value, inputs, outputs, MinimalNonDust(Spare(outputs)))
      ensures Completes(inputs, outputs) <==> Returns(inputs, outputs)
    {
      var value, due := outputs[|outputs| - 1].value, FeeDue(inputs, outputs);
      UnstrippedIsPayable(inputs, outputs, unusedChange, utxos);
      if value > due {
        UnstrippedPays(inputs, outputs, unusedChange, utxos, value - due);
      }
    }

    lemma StrippedReturns(
      inputs: seq<OutPoint>, outputs: seq<TxOut>, unusedChange: seq<Script>, utxos: seq<OutPoint>)
      requires AlignedWith(inputs, outputs, unusedChange, utxos) && Refusal().None?
      requires outgoing.outpoint in wallet && outgoing.offset < wallet[outgoing.outpoint].value
      requires Excessive(outputs[|outputs| - 1].value, inputs, outputs, MinimalNonDust(Spare(outputs)))
      ensures Completes(inputs, outputs) <==> Returns(inputs, outputs)
    {
      var at, stripped := |outputs| - 1, Stripped(inputs, outputs);
      var due := FeeDue(inputs, stripped);
      StrippedTotals(inputs, outputs);
      OutputTotalOfTwo(outputs);
      RemainingIsFine();
      if stripped[at + 1].value >= due {
        var paid := FeePaid(inputs, stripped);
        StrippedFinishes(inputs, outputs, unusedChange, utxos);
        PassesExactly(inputs, paid, at);
        assert at == 1 ==> paid[0] == outputs[0];
        assert paid[at] == TxOut(Remaining(target), recipient);
        assert paid[at + 1] == TxOut(stripped[at + 1].value - due, Spare(outputs));
        NoDustOf(paid);
      }
    }

    lemma NoDustOf(outputs: seq<TxOut>)
      requires 1 <= |outputs| <= 3
      ensures NoDust(outputs) <==>
        && outputs[0].value >= MinimalNonDust(outputs[0].script)
        && (|outputs| > 1 ==> outputs[1].value >= MinimalNonDust(outputs[1].script))
        && (|outputs| > 2 ==> outputs[2].value >= MinimalNonDust(outputs[2].script))
    {
    }

    /** What is left for the recipient when value is stripped is within bounds and no dust. */
    lemma RemainingIsFine()
      requires |change| == 2 && Refusal().None?
      ensures Low() <= Remaining(target) <= High() && Remaining(target) >= MinimalNonDust(recipient)
    {
    }

    /** The pipeline returns a transaction exactly when the condition after `AddValue` holds. */
    lemma CompletesExactly(
      inputs: seq<OutPoint>, outputs: seq<TxOut>, unusedChange: seq<Script>, utxos: seq<OutPoint>)
      requires AlignedWith(inputs, outputs, unusedChange, utxos) && Refusal().None?
      requires outgoing.outpoint in wallet && outgoing.offset < wallet[outgoing.outpoint].value
      ensures Completes(inputs, outputs) <==> Returns(inputs, outputs)
    {
      if Excessive(outputs[|outputs| - 1].value, inputs, outputs, MinimalNonDust(Spare(outputs))) {
        StrippedReturns(inputs, outputs, unusedChange, utxos);
      } else {
        UnstrippedReturns(inputs, outputs, unusedChange, utxos);
      }
    }

    // ----- the verdict on a request -----

    /** The outgoing output alone, its sats split at the outgoing one. */
    function SelectedDraft(utxos: seq<OutPoint>): Draft
      requires |change| == 2
    {
      var value := Amount(wallet, outgoing.outpoint);
      var outputs :=
        if outgoing.offset == 0 || outgoing.offset > value then [TxOut(value, recipient)]
        else [TxOut(outgoing.offset, change[1]), TxOut(value - outgoing.offset, recipient)];
      Draft([outgoing.outpoint], outputs, Without(utxos, outgoing.outpoint))
    }

    function PaddedDraft(d: Draft, coins: seq<OutPoint>): Draft
      requires d.outputs != []
    {
      Draft(Reversed(coins) + d.inputs, Enlarged(d.outputs, InputTotal(wallet, coins)), WithoutAll(d.utxos, coins))
    }

    function RaisedDraft(d: Draft, coins: seq<OutPoint>): Draft
      requires d.outputs != []
    {
      Draft(d.inputs + coins, Raised(d.outputs, InputTotal(wallet, coins)), WithoutAll(d.utxos, coins))
    }

    /** What padding makes of the selected output, or how it ends. */
    function Padding(d: Draft): Result<Draft, Outcome>
      requires |change| == 2 && d.outputs != []
    {
      var plan := PaddingPlan(d.outputs, d.utxos);
      if plan.Coins? then Ok(PaddedDraft(d, plan.coins)) else Err(Ending(plan))
    }

    /** What adding value makes of it. */
    function Adding(d: Draft): Result<Draft, Outcome>
      requires d.outputs != []
    {
      var plan := AddingPlan(d.inputs, d.outputs, d.utxos);
      if plan.Coins? then Ok(RaisedDraft(d, plan.coins)) else Err(Ending(plan))
    }

    /** What coin selection makes of the selected output, or how it ends. */
    function Funded(d: Draft): Result<Draft, Outcome>
      requires |change| == 2 && d.outputs != []
    {
      var padded := Padding(d);
      if padded.Err? then padded else Adding(padded.value)
    }

    /** How a request ends, told from the request alone. */
    function Verdict(utxos: seq<OutPoint>): Outcome
      requires |change| == 2
    {
      if Refusal().Some? then Failed(Refusal().value)
      else if Obstacle().Some? then Failed(Obstacle().value)
      else
        var funded := Funded(SelectedDraft(utxos));
        if funded.Err? then funded.error
        else if funded.value.outputs != [] && Returns(funded.value.inputs, funded.value.outputs) then Done
        else Panic
    }

    ghost predicate Requested(utxos: seq<OutPoint>) {
      && |change| == 2 && IsAddress(change[0]) && IsAddress(change[1]) && Monotone(fee)
      && Distinct(utxos) && (forall x :: x in utxos <==> x in wallet)
    }

    /** The change addresses that are not used yet when there are so many outputs. */
    function Unused(outputs: seq<TxOut>): seq<Script>
      requires |change| == 2 && 1 <= |outputs| <= 2
    {
      change[..3 - |outputs|]
    }

    ghost predicate AlignedDraft(d: Draft) {
      |change| == 2 && 1 <= |d.outputs| <= 2 && AlignedWith(d.inputs, d.outputs, Unused(d.outputs), d.utxos)
    }

    /** A script that carries data has no address, so it is not one of the change addresses. */
    lemma NotRefused()
      requires |change| == 2 && IsAddress(change[0]) && IsAddress(change[1]) && Refusal().None?
      ensures recipient !in change && change[0] != change[1]
    {
      if IsOpReturn(recipient) {
        assert !IsAddress(recipient);
        assert recipient != change[0] && recipient != change[1];
      }
    }

    lemma SelectedIsAligned(utxos: seq<OutPoint>)
      requires Requested(utxos) && Refusal().None? && Obstacle().None?
      ensures AlignedDraft(SelectedDraft(utxos))
      ensures |SelectedDraft(utxos).outputs| == if outgoing.offset == 0 then 1 else 2
    {
      NotRefused();
      WithoutKeeps(utxos, outgoing.outpoint);
      OutputTotalOfTwo(SelectedDraft(utxos).outputs);
    }

    /** Without a padding output nothing is padded. */
    lemma NoPadding(d: Draft)
      requires |change| == 2 && |d.outputs| == 1
      ensures Padding(d) == Ok(d)
    {
      assert PaddingPlan(d.outputs, d.utxos) == Coins([]);
      assert Enlarged(d.outputs, 0) == d.outputs && Reversed([]) + d.inputs == d.inputs;
    }

    lemma PaddedDraftIsAligned(d: Draft, coins: seq<OutPoint>)
      requires AlignedDraft(d) && |d.outputs| == 2 && Takeable(coins, d.utxos, Barred())
      ensures AlignedDraft(PaddedDraft(d, coins))
    {
      PaddedIsAligned(d.inputs, d.outputs, Unused(d.outputs), d.utxos, coins);
    }

    lemma PaddingIsAligned(d: Draft)
      requires AlignedDraft(d) && Padding(d).Ok?
      ensures AlignedDraft(Padding(d).value) && |Padding(d).value.outputs| == |d.outputs|
      ensures d.inputs != [] ==>
        Padding(d).value.inputs != [] && LastOf(Padding(d).value.inputs) == LastOf(d.inputs)
      ensures |d.outputs| == 2 ==> Padding(d).value.outputs[0].value >= MinimalNonDust(change[0])
    {
      if |d.outputs| == 2 {
        var coins, goal := PaddingPlan(d.outputs, d.utxos).coins, MinimalNonDust(change[0]);
        PadPlanTakeable(wallet, d.utxos, Barred(), d.outputs[0].value, goal);
        PadPlanReaches(wallet, d.utxos, Barred(), d.outputs[0].value, goal);
        PaddedDraftIsAligned(d, coins);
      } else {
        NoPadding(d);
      }
    }

    lemma RaisingIsAligned(d: Draft)
      requires AlignedDraft(d) && Adding(d).Ok?
      ensures AlignedDraft(Adding(d).value) && |Adding(d).value.outputs| == |d.outputs|
      ensures d.outputs[0] == Adding(d).value.outputs[0] || |d.outputs| == 1
    {
      AddingIsAligned(d.inputs, d.outputs, Unused(d.outputs), d.utxos);
    }

    function LastOf(inputs: seq<OutPoint>): OutPoint
      requires inputs != []
    {
      inputs[|inputs| - 1]
    }

    /** The outputs of the transaction. */
    function Paid(inputs: seq<OutPoint>, outputs: seq<TxOut>): seq<TxOut>
      requires |change| == 2 && outputs != [] && Payable(inputs, Stripped(inputs, outputs))
    {
      FeePaid(inputs, Stripped(inputs, outputs))
    }

    lemma PaidFinishes(d: Draft)
      requires AlignedDraft(d) && Payable(d.inputs, Stripped(d.inputs, d.outputs))
      ensures Finished(d.inputs, Paid(d.inputs, d.outputs), |d.outputs| - 1)
    {
      if Excessive(d.outputs[|d.outputs| - 1].value, d.inputs, d.outputs, MinimalNonDust(Spare(d.outputs))) {
        StrippedTotals(d.inputs, d.outputs);
        StrippedFinishes(d.inputs, d.outputs, Unused(d.outputs), d.utxos);
      } else {
        UnstrippedEnds(d.inputs, d.outputs, Unused(d.outputs), d.utxos);
      }
    }

    /** Whether value is stripped from a draft. */
    predicate Strips(d: Draft)
      requires |change| == 2 && d.outputs != []
    {
      Excessive(d.outputs[|d.outputs| - 1].value, d.inputs, d.outputs, MinimalNonDust(Spare(d.outputs)))
    }

    lemma RaisedIsCovered(before: Draft, d: Draft, added: nat)
      requires before.outputs != [] && Distinct(before.utxos) && Adding(before) == Ok(d) && d.outputs != []
      requires added == |AddingPlan(before.inputs, before.outputs, before.utxos).coins|
      ensures Covered(d.inputs, d.outputs, added)
    {
      MinimumNearlyKept(before.inputs, before.outputs, before.utxos);
    }

    /** What each output of the transaction is left with. */
    lemma DraftSettles(d: Draft, added: nat)
      requires Monotone(fee) && AlignedDraft(d) && Payable(d.inputs, Stripped(d.inputs, d.outputs))
      requires Covered(d.inputs, d.outputs, added)
      ensures Settled(d.inputs, Paid(d.inputs, d.outputs), |d.outputs| - 1, added, Strips(d))
    {
      if Strips(d) {
        StrippedTotals(d.inputs, d.outputs);
        StrippedSettles(d.inputs, d.outputs, Unused(d.outputs), d.utxos, added);
      } else {
        UnstrippedFinishes(d.inputs, d.outputs, Unused(d.outputs), d.utxos, added);
      }
    }

    // ----- what is known of a returned transaction -----

    /** The draft before value is added. */
    function BeforeAdding(utxos: seq<OutPoint>): Draft
      requires |change| == 2 && Verdict(utxos).Done?
    {
      Padding(SelectedDraft(utxos)).value
    }

    /** The draft after it. */
    function AfterAdding(utxos: seq<OutPoint>): Draft
      requires |change| == 2 && Verdict(utxos).Done?
    {
      Adding(BeforeAdding(utxos)).value
    }

    lemma DraftsAreAligned(utxos: seq<OutPoint>)
      requires Requested(utxos) && Verdict(utxos).Done?
      ensures AlignedDraft(BeforeAdding(utxos)) && AlignedDraft(AfterAdding(utxos))
      ensures |AfterAdding(utxos).outputs| == |BeforeAdding(utxos).outputs| == if outgoing.offset == 0 then 1 else 2
      ensures BeforeAdding(utxos).inputs != [] && LastOf(BeforeAdding(utxos).inputs) == outgoing.outpoint
      ensures outgoing.offset > 0 ==> AfterAdding(utxos).outputs[0].value >= MinimalNonDust(change[0])
    {
      SelectedIsAligned(utxos);
      PaddingIsAligned(SelectedDraft(utxos));
      RaisingIsAligned(BeforeAdding(utxos));
    }

    lemma DraftCompletes(d: Draft)
      requires AlignedDraft(d) && Refusal().None? && Obstacle().None?
      ensures Returns(d.inputs, d.outputs) ==>
        && outgoing.outpoint in d.inputs && Payable(d.inputs, Stripped(d.inputs, d.outputs))
        && Passes(d.inputs, Paid(d.inputs, d.outputs))
    {
      CompletesExactly(d.inputs, d.outputs, Unused(d.outputs), d.utxos);
    }

    lemma DoneCompletes(utxos: seq<OutPoint>)
      requires Requested(utxos) && Verdict(utxos).Done?
      ensures var d := AfterAdding(utxos);
        && outgoing.outpoint in d.inputs && d.outputs != []
        && Payable(d.inputs, Stripped(d.inputs, d.outputs)) && Passes(d.inputs, Paid(d.inputs, d.outputs))
    {
      DraftsAreAligned(utxos);
      DraftCompletes(AfterAdding(utxos));
    }

    /** The returned transaction. */
    ghost function Transaction(utxos: seq<OutPoint>): (seq<OutPoint>, seq<TxOut>)
      requires Requested(utxos) && Verdict(utxos).Done?
    {
      DoneCompletes(utxos);
      var d := AfterAdding(utxos);
      (d.inputs, Paid(d.inputs, d.outputs))
    }

    /** Where it pays the recipient. */
    function RecipientAt(): nat {
      if outgoing.offset == 0 then 0 else 1
    }

    /** The books are balanced, the recipient's output follows as much as comes before the outgoing sat, and
        only change is paid besides. */
    lemma ReturnedFinishes(utxos: seq<OutPoint>)
      requires Requested(utxos) && Verdict(utxos).Done?
      ensures var (inputs, outputs) := Transaction(utxos);
        Finished(inputs, outputs, RecipientAt())
    {
      DraftsAreAligned(utxos);
      DoneCompletes(utxos);
      PaidFinishes(AfterAdding(utxos));
    }

    /** The inputs are distinct outputs of the wallet, and none but the outgoing one is locked, inscribed or
        runic. */
    lemma ReturnedSpends(utxos: seq<OutPoint>)
      requires Requested(utxos) && Verdict(utxos).Done?
      ensures var inputs := Transaction(utxos).0;
        && Distinct(inputs) && outgoing.outpoint in inputs
        && (forall x <- inputs :: x in wallet)
        && (forall x <- inputs :: x != outgoing.outpoint ==> x !in runic && x !in locked)
        && (forall x, i :: x in inputs && x != outgoing.outpoint && 0 <= i < |inscriptions| ==>
          inscriptions[i].satpoint.outpoint != x)
    {
      DraftsAreAligned(utxos);
      forall x <- Transaction(utxos).0
        ensures x in wallet && (x == outgoing.outpoint || x !in Barred())
      {
      }
    }

    /** The coins that were added come last, right behind the outgoing output. */
    lemma AddedComeLast(utxos: seq<OutPoint>) returns (added: nat)
      requires Requested(utxos) && Verdict(utxos).Done?
      ensures Covered(AfterAdding(utxos).inputs, AfterAdding(utxos).outputs, added)
      ensures var inputs := AfterAdding(utxos).inputs;
        added < |inputs| && inputs[|inputs| - 1 - added] == outgoing.outpoint
    {
      DraftsAreAligned(utxos);
      var before, d := BeforeAdding(utxos), AfterAdding(utxos);
      added := |AddingPlan(before.inputs, before.outputs, before.utxos).coins|;
      RaisedIsCovered(before, d, added);
    }

    /** With stripping the recipient gets exactly the target and the change is above dust; without, the recipient
        gets the minimum but for half the rate for each coin added behind the outgoing one. */
    lemma ReturnedSettles(utxos: seq<OutPoint>, d: Draft, added: nat)
      requires Requested(utxos) && Verdict(utxos).Done? && d == AfterAdding(utxos)
      requires d.outputs != [] && Covered(d.inputs, d.outputs, added)
      ensures Payable(d.inputs, Stripped(d.inputs, d.outputs))
      ensures Settled(d.inputs, Paid(d.inputs, d.outputs), |d.outputs| - 1, added, Strips(d))
    {
      DraftsAreAligned(utxos);
      DoneCompletes(utxos);
      DraftSettles(d, added);
    }

    /** Value is stripped exactly when more than the most the target allows would be left and the rest pays for an
        output of its own. */
    lemma StripsExactly(d: Draft)
      requires |change| == 2 && 1 <= |d.outputs| <= 2
      ensures var value, vsize := d.outputs[|d.outputs| - 1].value, VSize(|d.inputs|, d.outputs);
        var cost := MinimalNonDust(if |d.outputs| == 2 then change[0] else change[1]) + fee(vsize + 43);
        Strips(d) <==> match target
          case Postage => value > fee(vsize) + 20_000 && value - 10_000 > cost
          case Value(amount) => value > fee(vsize) + amount && value - amount > cost
          case ExactPostage(amount) => value > fee(vsize) + amount && value - amount > cost
    {
    }

    /** With stripping the recipient gets just what the target names, and an unused change address the rest; without,
        the recipient pays the fee. */
    lemma PaidAmounts(d: Draft)
      requires AlignedDraft(d) && Payable(d.inputs, Stripped(d.inputs, d.outputs))
      ensures var at, paid := |d.outputs| - 1, Paid(d.inputs, d.outputs);
        if Strips(d) then
          && |paid| == at + 2
          && paid[at + 1].script == (if |d.outputs| == 2 then change[0] else change[1])
          && paid[at].value
            == (match target case Postage => 10_000 case Value(amount) => amount case ExactPostage(amount) => amount)
        else
          |paid| == at + 1 && paid[at].value == d.outputs[at].value - fee(VSize(|d.inputs|, d.outputs))
    {
    }

    /** The recipient's output is worth something and within its bounds, and no output is dust. */
    lemma ReturnedPasses(utxos: seq<OutPoint>)
      requires Requested(utxos) && Verdict(utxos).Done?
      ensures var outputs := Transaction(utxos).1;
        RecipientAt() < |outputs| && 0 < outputs[RecipientAt()].value && NoDust(outputs)
          && Low() <= outputs[RecipientAt()].value <= High()
      ensures var outputs := Transaction(utxos).1;
        && (forall i :: 0 <= i < |outputs| ==> outputs[i].value >= MinimalNonDust(outputs[i].script))
        && match target
          case Postage => outputs[RecipientAt()].value <= 20_000 + fee(43)
          case ExactPostage(amount) => outputs[RecipientAt()].value <= amount + fee(43)
          case Value(amount) =>
            && amount <= outputs[RecipientAt()].value
            && (outputs[RecipientAt()].value <= amount + MinimalNonDust(change[0]) + fee(43)
              || outputs[RecipientAt()].value <= amount + MinimalNonDust(change[1]) + fee(43))
    {
      DoneCompletes(utxos);
      ReturnedFinishes(utxos);
      ReturnedSpends(utxos);
      PassesExactly(Transaction(utxos).0, Transaction(utxos).1, RecipientAt());
    }

    /** A request is refused for another inscription exactly when one in the same output, at another sat, lies less
        than a dust limit before the outgoing sat, or behind it. */
    lemma RefusedForInscription()
      requires |change| == 2
      ensures (Obstacle().Some? && Obstacle().value.UtxoContainsAdditionalInscriptions?) <==>
        exists i :: 0 <= i < |inscriptions| && inscriptions[i].satpoint.outpoint == outgoing.outpoint
          && inscriptions[i].satpoint.offset != outgoing.offset
          && inscriptions[i].satpoint.offset + MinimalNonDust(change[1]) > outgoing.offset
    {
      LastBlockingIsLast(inscriptions, outgoing, MinimalNonDust(change[1]));
    }

    /** So all others in the outgoing output lie at least a dust limit before the outgoing sat, and a returned
        transaction has an output for what comes before it. */
    lemma OthersLieBefore(utxos: seq<OutPoint>, i: nat)
      requires Requested(utxos) && Verdict(utxos).Done? && i < |inscriptions|
      requires inscriptions[i].satpoint.outpoint == outgoing.outpoint
      requires inscriptions[i].satpoint.offset != outgoing.offset
      ensures inscriptions[i].satpoint.offset + MinimalNonDust(change[1]) <= outgoing.offset
      ensures RecipientAt() == 1
    {
      RefusedForInscription();
      AddressDust(change[1]);
    }

    /** That output pays the second change address, and the outgoing sat comes right behind it. */
    lemma ReturnedPads(utxos: seq<OutPoint>)
      requires Requested(utxos) && Verdict(utxos).Done? && RecipientAt() == 1
      ensures var (inputs, outputs) := Transaction(utxos);
        && |outputs| >= 2 && outputs[0].script == change[1] && outgoing.outpoint in inputs
        && outputs[0].value == SatOffset(wallet, inputs, outgoing)
    {
      DraftsAreAligned(utxos);
      DoneCompletes(utxos);
      ReturnedFinishes(utxos);
      var outputs := Transaction(utxos).1;
      assert OutputTotal(outputs[..1]) == outputs[0].value by {
        assert outputs[..1][1..] == [];
      }
    }

    /** The checks before the first stage, each by the request. */
    lemma RefusalIs()
      requires |change| == 2
      ensures change[0] == change[1] ==> Refusal() == Some(DuplicateAddress(change[0]))
      ensures change[0] != change[1] && IsOpReturn(recipient) ==> Refusal().None?
      ensures change[0] != change[1] && !IsOpReturn(recipient) ==>
        && (Refusal() == Some(InvalidAddress) <==> !IsAddress(recipient))
        && (IsAddress(recipient) && (recipient == change[0] || recipient == change[1]) ==>
          Refusal() == Some(DuplicateAddress(recipient)))
        && (IsAddress(recipient) && recipient != change[0] && recipient != change[1] ==>
          Refusal() == match target
            case Postage => None
            case Value(amount) =>
              if amount < MinimalNonDust(recipient) then Some(Dust(amount, MinimalNonDust(recipient))) else None
            case ExactPostage(amount) =>
              if amount < MinimalNonDust(recipient) then Some(Dust(amount, MinimalNonDust(recipient))) else None)
    {
      assert recipient in change <==> recipient == change[0] || recipient == change[1];
    }

    /** The errors of the first stage, each by the wallet. */
    lemma ObstacleIs()
      requires |change| == 2 && forall i :: 0 <= i < |inscriptions| ==>
        !Blocks(inscriptions[i], outgoing, MinimalNonDust(change[1]))
      ensures outgoing.outpoint !in wallet <==> Obstacle() == Some(NotInWallet(outgoing))
      ensures outgoing.outpoint in wallet ==>
        var value := wallet[outgoing.outpoint].value;
        && (outgoing.offset < value <==> Obstacle().None?)
        && (outgoing.offset >= value ==> Obstacle() == Some(OutOfRange(outgoing, value - 1)))
    {
      LastBlockingIsLast(inscriptions, outgoing, MinimalNonDust(change[1]));
    }

    /** The candidates of a selection, as the plans need them. */
    lemma CardinalsAreUnbarred(utxos: seq<OutPoint>)
      ensures forall x <- utxos :: x in Cardinals(utxos) <==> x !in Barred()
    {
      forall x <- utxos
        ensures x in Cardinals(utxos) <==> x !in Barred()
      {
        BarredExactly(x);
      }
    }

    /** Padding fails exactly when all coins of the wallet that may be spent do not bring the padding output to the
        dust limit. */
    lemma PaddingExactly(d: Draft)
      requires |change| == 2 && d.outputs != [] && Distinct(d.utxos)
      ensures Padding(d).Ok? <==>
        |d.outputs| == 2 ==>
          d.outputs[0].value + Gains(wallet, d.utxos, Cardinals(d.utxos), 0) >= MinimalNonDust(change[0])
      ensures Padding(d).Err? ==> Padding(d).error == Failed(NotEnoughCardinalUtxos)
    {
      CardinalsAreUnbarred(d.utxos);
      var goal := if |d.outputs| == 2 then MinimalNonDust(change[0]) else 0;
      PadPlanExactly(wallet, d.utxos, Barred(), d.outputs[0].value, goal, Cardinals(d.utxos));
    }

    /** What the recipient is to hold when the fee is still in its output. */
    function Goal(d: Draft): nat {
      var least := match target
        case Postage => MinimalNonDust(recipient)
        case Value(amount) => amount
        case ExactPostage(amount) => amount;
      least + fee(VSize(|d.inputs|, d.outputs))
    }

    /** Adding value fails exactly for an overflow, and when all coins that may be spent and are worth more than their
        own fee do not bring what is missing beyond it. */
    lemma AddingExactly(d: Draft)
      requires d.outputs != [] && Distinct(d.utxos)
      ensures var last, extra := d.outputs[|d.outputs| - 1].value, fee(57);
        if Goal(d) > U64_MAX || (Goal(d) > last && Goal(d) - last + extra > U64_MAX) then
          Adding(d) == Err(Failed(ValueOverflow))
        else if last + Gains(wallet, d.utxos, Cardinals(d.utxos), extra) >= Goal(d) then
          Adding(d).Ok? && (last >= Goal(d) ==> Adding(d).value.inputs == d.inputs)
        else
          Adding(d) == Err(Failed(NotEnoughCardinalUtxos))
    {
      AddingPlanExactly(d);
    }

    lemma AddingPlanExactly(d: Draft)
      requires d.outputs != [] && Distinct(d.utxos)
      ensures var last, extra := d.outputs[|d.outputs| - 1].value, fee(57);
        var plan, gains := AddingPlan(d.inputs, d.outputs, d.utxos), Gains(wallet, d.utxos, Cardinals(d.utxos), extra);
        if Goal(d) > U64_MAX || (Goal(d) > last && Goal(d) - last + extra > U64_MAX) then plan == TooLarge
        else ShortExactly(plan, last + gains, Goal(d)) && (last >= Goal(d) ==> plan == Coins([]))
    {
      var last := d.outputs[|d.outputs| - 1].value;
      CardinalsAreUnbarred(d.utxos);
      PlanForTotal(d.inputs, d.outputs, d.utxos, Goal(d));
      if Goal(d) >= last {
        AddPlanExactly(wallet, d.utxos, Barred(), Goal(d) - last, fee(57), Cardinals(d.utxos));
      }
    }

    /** All coins together do not bring the padding output to the dust limit. */
    ghost predicate TooFewToPad(d: Draft)
      requires |change| == 2 && d.outputs != []
    {
      |d.outputs| == 2
      && d.outputs[0].value + Gains(wallet, d.utxos, Cardinals(d.utxos), 0) < MinimalNonDust(change[0])
    }

    /** All coins together do not bring the recipient's output to its goal. */
    ghost predicate TooFewToAdd(d: Draft)
      requires d.outputs != []
    {
      var last, extra := d.outputs[|d.outputs| - 1].value, fee(57);
      && last < Goal(d) <= U64_MAX && Goal(d) - last + extra <= U64_MAX
      && last + Gains(wallet, d.utxos, Cardinals(d.utxos), extra) < Goal(d)
    }

    /** A request is answered with too few coins exactly when all of the wallet's together would be too few. */
    lemma CoinsRunOut(utxos: seq<OutPoint>)
      requires Requested(utxos) && Refusal().None? && Obstacle().None?
      ensures var d := SelectedDraft(utxos);
        Verdict(utxos) == Failed(NotEnoughCardinalUtxos) <==>
          TooFewToPad(d) || (Padding(d).Ok? && Padding(d).value.outputs != [] && TooFewToAdd(Padding(d).value))
    {
      SelectedIsAligned(utxos);
      var d := SelectedDraft(utxos);
      PaddingExactly(d);
      if Padding(d).Ok? {
        PaddingIsAligned(d);
        AddingExactly(Padding(d).value);
      }
    }

    // ----- when the condition simplifies -----

    /** Stripped requests get their transaction but for an empty output or dust for padding. */
    lemma StrippedReturnsUnlessEmpty(d: Draft)
      requires Monotone(fee) && AlignedDraft(d) && Strips(d) && |Spare(d.outputs)| <= 34
      ensures Returns(d.inputs, d.outputs) <==> PaddingFine(d.outputs) && Remaining(target) > 0
    {
      ExcessPaysFee(d.inputs, d.outputs);
    }

    /** Only a data output with a target of zero leaves nothing for the recipient. */
    lemma EmptyOnlyForData()
      requires |change| == 2 && Refusal().None?
      ensures Remaining(target) == 0 ==> IsOpReturn(recipient) && !target.Postage? && target.amount == 0
    {
    }

    /** A data output with a target of zero stops the program when there is an excess to strip. */
    lemma EmptyRequestStops(utxos: seq<OutPoint>, d: Draft)
      requires Requested(utxos) && Refusal().None? && Obstacle().None? && Funded(SelectedDraft(utxos)) == Ok(d)
      requires IsOpReturn(recipient) && !target.Postage? && target.amount == 0
      ensures d.outputs != [] && (Strips(d) ==> Verdict(utxos) == Panic)
    {
    }

    /** How much dearer one more output is behind so many bytes than alone, by rounding. */
    function Surcharge(vsize: nat): nat {
      var together, apart := fee(vsize + ADDITIONAL_OUTPUT_VBYTES), fee(vsize) + fee(ADDITIONAL_OUTPUT_VBYTES);
      if together > apart then together - apart else 0
    }

    /** Without stripping, a postage or a value is exceeded by no more than this. */
    lemma TooMuchByRounding(d: Draft)
      requires AlignedDraft(d) && !Strips(d) && !target.ExactPostage?
      ensures d.outputs[|d.outputs| - 1].value
           <= FeeDue(d.inputs, d.outputs) + High() + Surcharge(VSize(|d.inputs|, d.outputs))
    {
      AddressDust(Spare(d.outputs));
    }

    /** At a fractional rate that is a single sat. */
    lemma OneSatTooMuch(d: Draft, num: nat, den: nat)
      requires AlignedDraft(d) && !Strips(d) && !target.ExactPostage?
      requires den > 0
      requires forall vsize {:trigger RoundsAtRate(fee, num, den, vsize)} :: RoundsAtRate(fee, num, den, vsize)
      ensures d.outputs[|d.outputs| - 1].value <= FeeDue(d.inputs, d.outputs) + High() + 1
    {
      var vsize := VSize(|d.inputs|, d.outputs);
      assert RoundsAtRate(fee, num, den, vsize) && RoundsAtRate(fee, num, den, ADDITIONAL_OUTPUT_VBYTES);
      assert RoundsAtRate(fee, num, den, vsize + ADDITIONAL_OUTPUT_VBYTES);
      RoundingSavesOne(num, den, vsize, ADDITIONAL_OUTPUT_VBYTES);
      TooMuchByRounding(d);
    }

    /** Where splitting saves nothing, as at a whole rate, only an exact postage can be exceeded. */
    lemma NeverTooMuch(d: Draft)
      requires Subadditive(fee) && AlignedDraft(d) && !Strips(d) && !target.ExactPostage?
      ensures d.outputs[|d.outputs| - 1].value <= FeeDue(d.inputs, d.outputs) + High()
    {
      assert NoSaving(fee, VSize(|d.inputs|, d.outputs), ADDITIONAL_OUTPUT_VBYTES);
      TooMuchByRounding(d);
    }

    /** A recipient can only be left short by coins that cost more than was planned for them. */
    lemma ShortOnlyWithCoins(before: Draft)
      requires before.outputs != [] && AddingPlan(before.inputs, before.outputs, before.utxos) == Coins([])
      ensures Adding(before).Ok?
      ensures var d := Adding(before).value;
        d.outputs[|d.outputs| - 1].value >= FeeDue(d.inputs, d.outputs) + Minimum(target, recipient)
    {
      AddingCovers(before.inputs, before.outputs, before.utxos);
      SetLastKeeps(before.outputs, before.outputs[|before.outputs| - 1].value);
      assert before.inputs + [] == before.inputs;
    }

    /** What the recipient is left with is enough and not too much. */
    predicate Enough(left: int)
      requires |change| == 2
    {
      && left > 0
      && (target.Postage? || target.ExactPostage? ==> left >= MinimalNonDust(recipient))
      && Low() <= left <= High()
    }

    /** For change addresses of one ordinary kind, once coins are found: a transaction is returned exactly when, with
        stripping, something is left for the recipient, and without, enough is left and not too much. */
    lemma OrdinaryVerdict(utxos: seq<OutPoint>, d: Draft)
      requires Requested(utxos) && Refusal().None? && Obstacle().None?
      requires |change[0]| <= 34 && |change[1]| <= 34 && MinimalNonDust(change[0]) == MinimalNonDust(change[1])
      requires Funded(SelectedDraft(utxos)) == Ok(d)
      ensures AlignedDraft(d)
      ensures Verdict(utxos).Done? || Verdict(utxos).Panic?
      ensures Verdict(utxos).Done? <==>
        if Strips(d) then Remaining(target) > 0
        else Enough(d.outputs[|d.outputs| - 1].value - FeeDue(d.inputs, d.outputs))
    {
      var first := SelectedDraft(utxos);
      SelectedIsAligned(utxos);
      PaddingIsAligned(first);
      RaisingIsAligned(Padding(first).value);
      if Strips(d) {
        StrippedReturnsUnlessEmpty(d);
      } else {
        UnstrippedVerdict(d);
      }
    }

    lemma UnstrippedVerdict(d: Draft)
      requires AlignedDraft(d) && Refusal().None? && !Strips(d) && PaddingFine(d.outputs)
      ensures Returns(d.inputs, d.outputs) <==> Enough(d.outputs[|d.outputs| - 1].value - FeeDue(d.inputs, d.outputs))
    {
      if IsAddress(recipient) {
        AddressDust(recipient);
      }
    }

    method StripAndDeduct() returns (outcome: Outcome)
      requires Aligned()
      modifies this`outputs, this`unusedChange
      ensures outcome == if Payable(inputs, Stripped(inputs, old(outputs))) then Done else Panic
      ensures outcome.Done? ==> outputs == Paid(inputs, old(outputs))
      ensures Valid()
    {
      StripValue();
      outcome := DeductFee();
    }

    /** The last three stages. */
    method Finish() returns (outcome: Outcome)
      requires Aligned() && Refusal().None? && Obstacle().None?
      modifies this`outputs, this`unusedChange
      ensures outcome == if Completes(inputs, old(outputs)) then Done else Panic
      ensures outcome.Done? ==>
        && Valid() && Payable(inputs, Stripped(inputs, old(outputs)))
        && outputs == Paid(inputs, old(outputs)) && Passes(inputs, outputs)
    {
      outcome := StripAndDeduct();
      if outcome.Done? {
        outcome := Build();
      }
    }

    /** Builds the transaction that the request calls for, or ends as the verdict says. */
    method BuildTransaction() returns (outcome: Outcome)
      requires Fresh()
      modifies this
      ensures outcome == Verdict(old(utxos))
      ensures outcome.Done? ==> Valid() && (inputs, outputs) == Transaction(old(utxos))
    {
      outcome := Check();
      if !outcome.Done? {
        return;
      }
      outcome := Gather();
      if outcome.Done? {
        CompletesExactly(inputs, outputs, unusedChange, utxos);
        outcome := Finish();
      }
    }

    /** The stages up to `AddValue`. */
    method Gather() returns (outcome: Outcome)
      requires Plain()
      modifies this
      ensures Obstacle().Some? ==> outcome == Failed(Obstacle().value)
      ensures Obstacle().None? ==>
        var funded := Funded(SelectedDraft(old(utxos)));
        if funded.Err? then outcome == funded.error && !outcome.Done?
        else outcome.Done? && Draft(inputs, outputs, utxos) == funded.value
      ensures outcome.Done? ==> Aligned()
    {
      outcome := SelectAndAlign();
      if outcome.Done? {
        outcome := PadAndAdd();
      }
    }

    /** The first two stages. */
    method SelectAndAlign() returns (outcome: Outcome)
      requires Plain()
      modifies this
      ensures outcome == if Obstacle().None? then Done else Failed(Obstacle().value)
      ensures outcome.Done? ==>
        && Aligned()
        && Draft(inputs, outputs, utxos) == SelectedDraft(old(utxos))
    {
      outcome := SelectOutgoing();
      if outcome.Done? {
        AlignOutgoing();
      }
    }

    /** The two stages that take more coins. */
    method PadAndAdd() returns (outcome: Outcome)
      requires Aligned()
      modifies this`inputs, this`outputs, this`utxos
      ensures var funded := Funded(Draft(old(inputs), old(outputs), old(utxos)));
        if funded.Err? then outcome == funded.error && !outcome.Done?
        else outcome.Done? && Draft(inputs, outputs, utxos) == funded.value
      ensures outcome.Done? ==> Aligned()
    {
      outcome := PadAlignmentOutput();
      if outcome.Done? {
        outcome := AddValue();
      }
    }
  }
}
