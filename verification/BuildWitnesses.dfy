/** Requests that the program accepts, and requests at which it stops.

The addresses, amounts, targets and rates are the arguments of the constructor, which takes any.  What the wallet
itself asks for is an address with a postage or an exact postage and change addresses of one kind, as in
`PostageIsSent`, `ExactPostageStops`, `DustStops` and `FeeStops`.
*/
module BuildWitnesses {
  import opened Options
  import opened Bitcoin
  import opened CoinSelection
  import opened BuildChecks
  import opened TransactionBuilder

  /** A taproot output script. */
  function Taproot(fill: Byte): (script: Script)
    ensures |script| == 34 && script[0] == 0x51 && script[1] == 0x20 && script[2] == fill
  {
    [0x51, 0x20] + seq(32, _ => fill)
  }

  /** A script that pays to the hash of a public key. */
  function PubkeyHash(fill: Byte): (script: Script)
    ensures IsPubkeyHash(script)
  {
    var script: Script := [0x76, 0xa9, 0x14] + seq(20, _ => fill) + [0x88, 0xac];
    assert script[..3] == [0x76, 0xa9, 0x14] && script[23..] == [0x88, 0xac];
    script
  }

  /** A witness program of version 0 with the hash of a public key. */
  function WitnessPubkeyHash(fill: Byte): (script: Script)
    ensures |script| == 22 && script[0] == 0 && script[1] == 0x14 && script[2] == fill
  {
    [0, 0x14] + seq(20, _ => fill)
  }

  const DATA: Script := [0x6a]

  function RateOne(vsize: nat): nat {
    vsize
  }

  lemma RateOneIsOrdinary()
    ensures AtRate(RateOne, 1) && Monotone(RateOne)
  {
    forall vsize: nat
      ensures CostsAtRate(RateOne, 1, vsize)
    {
    }
    WholeRateIsOrdinary(RateOne, 1);
  }

  function HighRate(vsize: nat): nat {
    330 * vsize
  }

  lemma HighRateIsOrdinary()
    ensures AtRate(HighRate, 330) && Monotone(HighRate)
  {
    forall vsize: nat
      ensures CostsAtRate(HighRate, 330, vsize)
    {
    }
    WholeRateIsOrdinary(HighRate, 330);
  }

  /** A rate of 1.01. */
  function FractionalRate(vsize: nat): nat {
    RoundedFee(101, 100, vsize)
  }

  lemma FractionalRateIsMonotone()
    ensures Monotone(FractionalRate)
  {
    var fee := (vsize: nat) => RoundedFee(101, 100, vsize);
    RoundedFeeIsMonotone(101, 100);
    forall low: nat, high: nat
      ensures NoDearer(FractionalRate, low, high)
    {
      assert NoDearer(fee, low, high);
    }
  }

  lemma FractionalFees()
    ensures FractionalRate(43) == 43 && FractionalRate(111) == 112 && FractionalRate(154) == 156
    ensures !Subadditive(FractionalRate)
  {
    assert !NoSaving(FractionalRate, 111, 43);
  }

  predicate IsTaproot(script: Script) {
    IsAddress(script) && !IsOpReturn(script) && MinimalNonDust(script) == 330 && OutputSize(script) == 43
  }

  lemma Facts()
    ensures IsTaproot(Taproot(1)) && IsTaproot(Taproot(2)) && IsTaproot(Taproot(3))
    ensures AtRate(RateOne, 1) && Monotone(RateOne)
  {
    RateOneIsOrdinary();
  }

  /** The size with one output. */
  lemma SizeWithOne(inputs: nat, output: TxOut)
    requires 1 <= inputs <= 2
    ensures inputs == 1 ==> VSize(1, [output]) == (4 * (51 + OutputSize(output.script)) + 71) / 4
    ensures inputs == 2 ==> VSize(2, [output]) == (4 * (92 + OutputSize(output.script)) + 137) / 4
  {
    assert [output][1..] == [];
    assert OutputsSize([output]) == OutputSize(output.script);
  }

  lemma TaprootSizes(output: TxOut)
    requires IsTaproot(output.script)
    ensures VSize(1, [output]) == 111 && VSize(2, [output]) == 169
  {
    SizeWithOne(1, output);
    SizeWithOne(2, output);
  }

  /** A request that sends the first sat of `a`, with nothing inscribed, locked or runic. */
  ghost predicate Sends(b: Builder, a: OutPoint, amount: nat) {
    && b.outgoing == SatPoint(a, 0) && a in b.wallet && b.wallet[a].value == amount > 0
    && b.inscriptions == [] && b.locked == {} && b.runic == {} && |b.change| == 2
  }

  lemma SendsDraft(b: Builder, a: OutPoint, amount: nat, rest: seq<OutPoint>)
    requires Sends(b, a, amount)
    ensures b.Obstacle().None?
    ensures b.SelectedDraft([a] + rest) == Draft([a], [TxOut(amount, b.recipient)], rest)
    ensures b.Padding(b.SelectedDraft([a] + rest)) == Ok(Draft([a], [TxOut(amount, b.recipient)], rest))
  {
    assert ([a] + rest)[0] == a && ([a] + rest)[1..] == rest;
    b.NoPadding(b.SelectedDraft([a] + rest));
  }

  /** An amount that suffices is not added to. */
  lemma SendsAlone(b: Builder, a: OutPoint, amount: nat)
    requires Sends(b, a, amount)
    requires Minimum(b.target, b.recipient) + b.fee(VSize(1, [TxOut(amount, b.recipient)])) <= amount <= U64_MAX
    ensures b.Obstacle().None?
    ensures b.Funded(b.SelectedDraft([a])) == Ok(Draft([a], [TxOut(amount, b.recipient)], []))
  {
    var d := Draft([a], [TxOut(amount, b.recipient)], []);
    SendsDraft(b, a, amount, []);
    assert [a] + [] == [a];
    assert b.AddingPlan(d.inputs, d.outputs, d.utxos) == Coins([]);
    b.AddNothing(d.inputs, d.outputs, d.utxos);
  }

  lemma PickOnly(wallet: Wallet, coin: OutPoint, barred: set<OutPoint>, target: nat)
    requires coin !in barred
    ensures Pick(wallet, [coin], barred, target, false) == Some(coin)
  {
    assert [coin][1..] == [];
    assert Scan(wallet, [], barred, target, false, Some(coin)) == Some(coin);
  }

  /** With one more coin that just covers what is missing, that coin is added. */
  lemma SendsWithCoin(b: Builder, a: OutPoint, amount: nat, coin: OutPoint, needed: nat, extra: nat)
    requires Sends(b, a, amount) && coin in b.wallet && coin != a
    requires needed == Minimum(b.target, b.recipient) + b.fee(VSize(1, [TxOut(amount, b.recipient)]))
    requires amount < needed <= U64_MAX - extra && b.wallet[coin].value == needed - amount + extra
    requires extra == b.fee(ADDITIONAL_INPUT_VBYTES)
    ensures b.Obstacle().None?
    ensures b.Funded(b.SelectedDraft([a, coin]))
      == Ok(Draft([a, coin], [TxOut(needed + extra, b.recipient)], []))
  {
    var outputs, deficit := [TxOut(amount, b.recipient)], needed - amount;
    SendsDraft(b, a, amount, [coin]);
    assert [a] + [coin] == [a, coin];
    assert [coin][1..] == [];
    PickOnly(b.wallet, coin, b.Barred(), deficit + extra);
    assert Without([coin], coin) == [];
    assert AddPlan(b.wallet, [], b.Barred(), 0, extra) == Coins([]);
    assert AddPlan(b.wallet, [coin], b.Barred(), deficit, extra) == Coins([coin] + []);
    assert b.AddingPlan([a], outputs, [coin]) == Coins([coin]);
    assert InputTotal(b.wallet, [coin]) == deficit + extra;
    assert WithoutAll([coin], [coin]) == [];
    assert Raised(outputs, deficit + extra) == [TxOut(needed + extra, b.recipient)];
  }

  method NewBuilder(
    wallet: Wallet, utxos: seq<OutPoint>, first: Script, second: Script, fee: nat -> nat, a: SatPoint,
    recipient: Script, target: Target)
    returns (b: Builder)
    requires Distinct(utxos) && (forall x :: x in utxos <==> x in wallet) && IsAddress(first) && IsAddress(second)
    requires Monotone(fee)
    ensures fresh(b) && b.Fresh() && b.wallet == wallet && b.utxos == utxos && b.change == [first, second]
    ensures b.fee == fee && b.inscriptions == [] && b.locked == {} && b.runic == {}
    ensures b.outgoing == a && b.recipient == recipient && b.target == target
  {
    b := new Builder(wallet, utxos, [first, second], fee, [], {}, {}, a, recipient, target);
  }

  /** A plain request gets its transaction. */
  method PostageIsSent() returns (outcome: Outcome)
    ensures outcome == Done
  {
    var a := OutPoint(1, 0);
    Facts();
    var b := NewBuilder(
      map[a := TxOut(15_000, Taproot(9))], [a], Taproot(1), Taproot(2), RateOne, SatPoint(a, 0), Taproot(3), Postage);
    TaprootSizes(TxOut(15_000, b.recipient));
    SendsAlone(b, a, 15_000);
    outcome := b.BuildTransaction();
  }

  /** The slack that stripping allows is more than the check of an exact postage allows: 484 sats are too few to
      strip and too many to leave. */
  method ExactPostageStops() returns (outcome: Outcome)
    ensures outcome == Panic
  {
    var a := OutPoint(1, 0);
    Facts();
    var b := NewBuilder(
      map[a := TxOut(10_484, Taproot(9))], [a], Taproot(1), Taproot(2), RateOne, SatPoint(a, 0), Taproot(3),
      ExactPostage(10_000));
    TaprootSizes(TxOut(10_484, b.recipient));
    SendsAlone(b, a, 10_484);
    outcome := b.BuildTransaction();
    assert b.High() == 10_043;
  }

  /** An added coin costs half a virtual byte more than planned: the recipient of 10000 sats is left with 9999. */
  method ValueStops() returns (outcome: Outcome)
    ensures outcome == Panic
  {
    var a, c := OutPoint(1, 0), OutPoint(2, 0);
    Facts();
    var wallet := map[a := TxOut(10_000, Taproot(9)), c := TxOut(168, Taproot(9))];
    var b := NewBuilder(wallet, [a, c], Taproot(1), Taproot(2), RateOne, SatPoint(a, 0), Taproot(3), Value(10_000));
    TaprootSizes(TxOut(10_000, b.recipient));
    TaprootSizes(TxOut(10_168, b.recipient));
    SendsWithCoin(b, a, 10_000, c, 10_111, 57);
    outcome := b.BuildTransaction();
  }

  /** For the same reason the smallest postage can end up as dust. */
  method DustStops() returns (outcome: Outcome)
    ensures outcome == Panic
  {
    var a, c := OutPoint(1, 0), OutPoint(2, 0);
    Facts();
    var wallet := map[a := TxOut(330, Taproot(9)), c := TxOut(168, Taproot(9))];
    var b := NewBuilder(wallet, [a, c], Taproot(1), Taproot(2), RateOne, SatPoint(a, 0), Taproot(3), Postage);
    TaprootSizes(TxOut(330, b.recipient));
    TaprootSizes(TxOut(498, b.recipient));
    SendsWithCoin(b, a, 330, c, 441, 57);
    outcome := b.BuildTransaction();
  }

  /** A data output with a target of zero and something to strip: the recipient's output is empty. */
  method EmptyOutputStops() returns (outcome: Outcome)
    ensures outcome == Panic
  {
    var a := OutPoint(1, 0);
    Facts();
    var b := NewBuilder(
      map[a := TxOut(10_000, Taproot(9))], [a], Taproot(1), Taproot(2), RateOne, SatPoint(a, 0), DATA, Value(0));
    SizeWithOne(1, TxOut(10_000, b.recipient));
    SendsAlone(b, a, 10_000);
    outcome := b.BuildTransaction();
  }

  /** At a rate of 330 the missing half of a virtual byte is as much as the smallest postage: paying the fee would
      consume the outgoing sat. */
  method FeeStops() returns (outcome: Outcome)
    ensures outcome == Panic
  {
    HighRateIsOrdinary();
    outcome := StopsWithCoin(HighRate);
  }

  lemma NothingLeft(b: Builder, inputs: seq<OutPoint>, output: TxOut)
    requires |b.change| == 2 && output.value <= b.FeeDue(inputs, [output])
    ensures !b.Returns(inputs, [output])
  {
  }

  lemma CoinLeavesNothing(b: Builder, a: OutPoint, c: OutPoint)
    requires Sends(b, a, 330) && c in b.wallet && b.wallet[c].value == 55_440 && c != a
    requires b.target == Postage && IsTaproot(b.recipient) && b.Refusal().None?
    requires b.fee(57) == 18_810 && b.fee(111) == 36_630 && b.fee(169) == 55_770
    ensures b.Verdict([a, c]) == Panic
  {
    TaprootSizes(TxOut(330, b.recipient));
    TaprootSizes(TxOut(55_770, b.recipient));
    SendsWithCoin(b, a, 330, c, 36_960, 18_810);
    NothingLeft(b, [a, c], TxOut(55_770, b.recipient));
  }

  method StopsWithCoin(fee: nat -> nat) returns (outcome: Outcome)
    requires Monotone(fee) && fee(57) == 18_810 && fee(111) == 36_630 && fee(169) == 55_770
    ensures outcome == Panic
  {
    var a, c := OutPoint(1, 0), OutPoint(2, 0);
    Facts();
    var wallet := map[a := TxOut(330, Taproot(9)), c := TxOut(55_440, Taproot(9))];
    var b := NewBuilder(wallet, [a, c], Taproot(1), Taproot(2), fee, SatPoint(a, 0), Taproot(3), Postage);
    CoinLeavesNothing(b, a, c);
    outcome := b.BuildTransaction();
  }

  /** At a rate of 1.01 the parts of a transaction are rounded to less than the whole: 486 sats are too few to strip,
      and 374 of them, with the fee paid, too many to leave. */
  method RoundingStops() returns (outcome: Outcome)
    ensures outcome == Panic
  {
    FractionalRateIsMonotone();
    FractionalFees();
    outcome := StopsByRounding(FractionalRate);
  }

  method StopsByRounding(fee: nat -> nat) returns (outcome: Outcome)
    requires Monotone(fee) && fee(43) == 43 && fee(111) == 112 && fee(154) == 156
    ensures outcome == Panic
  {
    var a := OutPoint(1, 0);
    Facts();
    var b := NewBuilder(
      map[a := TxOut(10_486, Taproot(9))], [a], Taproot(1), Taproot(2), fee, SatPoint(a, 0), Taproot(3),
      Value(10_000));
    TaprootSizes(TxOut(10_486, b.recipient));
    SendsAlone(b, a, 10_486);
    outcome := b.BuildTransaction();
    assert b.High() == 10_373;
  }

  lemma PaddingFacts()
    ensures IsAddress(WitnessPubkeyHash(1)) && MinimalNonDust(WitnessPubkeyHash(1)) == 294
    ensures IsAddress(PubkeyHash(2)) && MinimalNonDust(PubkeyHash(2)) == 546
  {
  }

  lemma NoPaddingNeeded(b: Builder, d: Draft)
    requires |b.change| == 2 && |d.outputs| == 2 && d.outputs[0].value >= MinimalNonDust(b.change[0])
    ensures b.Padding(d) == Ok(d)
  {
    assert b.PaddingPlan(d.outputs, d.utxos) == Coins([]);
    assert Enlarged(d.outputs, 0) == d.outputs && Reversed([]) + d.inputs == d.inputs;
  }

  lemma SizeWithTwo(first: TxOut, second: TxOut)
    ensures VSize(1, [first, second]) == (4 * (51 + OutputSize(first.script) + OutputSize(second.script)) + 71) / 4
  {
    assert [first, second][1..] == [second] && [second][1..] == [];
    assert OutputsSize([second]) == OutputSize(second.script);
    assert OutputsSize([first, second]) == OutputSize(first.script) + OutputSize(second.script);
  }

  /** Padding is brought up to the dust limit of the change address that it does not pay: 300 sats are enough for
      one kind of address and dust for the other. */
  method PaddingStops() returns (outcome: Outcome)
    ensures outcome == Panic
  {
    var a := OutPoint(1, 0);
    PaddingFacts();
    Facts();
    var b := NewBuilder(map[a := TxOut(20_300, Taproot(9))], [a], WitnessPubkeyHash(1), PubkeyHash(2),
      RateOne, SatPoint(a, 300), Taproot(3), Postage);
    var outputs := [TxOut(300, b.change[1]), TxOut(20_000, b.recipient)];
    var d := Draft([a], outputs, []);
    assert b.SelectedDraft([a]) == d;
    NoPaddingNeeded(b, d);
    SizeWithTwo(outputs[0], outputs[1]);
    b.AddNothing(d.inputs, d.outputs, d.utxos);
    assert b.Funded(d) == Ok(d);
    outcome := b.BuildTransaction();
  }
}
