/** What the index does with a transaction that the builder built. */
module SatDelivery {
  import opened Bitcoin
  import opened SatRanges
  import opened LedgerModel
  import opened Conservation
  import RareSats
  import opened CoinSelection
  import opened TransactionBuilder

  /** The wallet knows how much each output it may spend is worth. */
  ghost predicate Backed(wallet: Wallet, utxos: Utxos, inputs: seq<OutPoint>) {
    forall x <- inputs ::
      x in utxos && x in wallet && !IsSpecial(x) && Total(utxos[x].ranges) == wallet[x].value
  }

  lemma {:induction false} InputsAreSpendable(wallet: Wallet, utxos: Utxos, inputs: seq<OutPoint>)
    requires Distinct(inputs) && Backed(wallet, utxos, inputs)
    ensures Spendable(utxos, inputs)
    ensures Total(SpentRanges(utxos, inputs)) == InputTotal(wallet, inputs)
  {
    if inputs != [] {
      var rest := utxos - {inputs[0]};
      assert Backed(wallet, rest, inputs[1..]);
      InputsAreSpendable(wallet, rest, inputs[1..]);
      TotalConcat(utxos[inputs[0]].ranges, SpentRanges(rest, inputs[1..]));
    }
  }

  /** The builder's own offset is where the index finds the outgoing sat among the spent ones. */
  lemma {:induction false} OffsetIsPosition(wallet: Wallet, utxos: Utxos, inputs: seq<OutPoint>, outgoing: SatPoint)
    requires Distinct(inputs) && Backed(wallet, utxos, inputs) && Spendable(utxos, inputs)
    requires outgoing.outpoint in inputs && outgoing.offset < wallet[outgoing.outpoint].value
    ensures var at, spent := SatOffset(wallet, inputs, outgoing), SpentRanges(utxos, inputs);
      at < Total(spent) && SatAt(spent, at) == SatAt(utxos[outgoing.outpoint].ranges, outgoing.offset)
  {
    var rest := utxos - {inputs[0]};
    var first, others := utxos[inputs[0]].ranges, SpentRanges(rest, inputs[1..]);
    assert Backed(wallet, rest, inputs[1..]);
    InputsAreSpendable(wallet, rest, inputs[1..]);
    if inputs[0] == outgoing.outpoint {
      SatAtConcat(first, others, outgoing.offset);
    } else {
      OffsetIsPosition(wallet, rest, inputs[1..], outgoing);
      SatAtConcat(first, others, SatOffset(wallet, inputs, outgoing));
    }
  }

  lemma {:induction false} OutputTotalIsSum(outputs: seq<TxOut>, values: seq<nat>)
    requires |values| == |outputs| && forall i :: 0 <= i < |outputs| ==> values[i] == outputs[i].value
    ensures OutputTotal(outputs) == Sum(values)
  {
    if outputs != [] {
      OutputTotalIsSum(outputs[1..], values[1..]);
    }
  }

  /** A sat that stands `i` places after everything the earlier outputs take lands at offset `i` of its output. */
  lemma LandsAt(starts: Schedule, p: Progress, tx: Tx, vout: nat, i: nat)
    requires TxValid(p.ledger.utxos, tx) && vout < |tx.outputs| && i < tx.outputs[vout].value
    ensures var spent := SpentRanges(p.ledger.utxos, tx.inputs);
      var at := OutputTotal(tx.outputs[..vout]) + i;
      && at < Total(spent)
      && Locates(IndexTx(starts, p, tx).ledger.utxos, SatAt(spent, at), SatPoint(OutPoint(tx.txid, vout), i))
  {
    var spent, values := SpentRanges(p.ledger.utxos, tx.inputs), Values(tx.outputs);
    AssignIsSlicing(values, spent, vout, i);
    OutputTotalIsSum(tx.outputs[..vout], values[..vout]);
    RareSats.CreditLookup(
      Unspent(p.ledger.utxos, tx.inputs), tx, Assign(values, spent).outputs, 0, OutPoint(tx.txid, vout));
  }

  lemma OutputHolds(starts: Schedule, p: Progress, tx: Tx, vout: nat)
    requires TxValid(p.ledger.utxos, tx) && vout < |tx.outputs|
    ensures var outpoint, after := OutPoint(tx.txid, vout), IndexTx(starts, p, tx).ledger.utxos;
      outpoint in after && Total(after[outpoint].ranges) == tx.outputs[vout].value
  {
    var spent, values := SpentRanges(p.ledger.utxos, tx.inputs), Values(tx.outputs);
    AssignTotals(values, spent, vout);
    RareSats.CreditLookup(
      Unspent(p.ledger.utxos, tx.inputs), tx, Assign(values, spent).outputs, 0, OutPoint(tx.txid, vout));
  }

  /** A built transaction is one the index accepts, as soon as its id is new. */
  lemma BuiltIsValid(b: Builder, inputs: seq<OutPoint>, outputs: seq<TxOut>, at: nat, utxos: Utxos, txid: nat)
    requires Distinct(inputs) && b.Finished(inputs, outputs, at) && Backed(b.wallet, utxos, inputs)
    requires txid != 0 && forall vout | 0 <= vout < |outputs| :: OutPoint(txid, vout) !in utxos
    ensures TxValid(utxos, Tx(txid, inputs, outputs))
  {
    var tx := Tx(txid, inputs, outputs);
    InputsAreSpendable(b.wallet, utxos, inputs);
    OutputTotalIsSum(outputs, Values(outputs));
    forall vout | 0 <= vout < |outputs|
      ensures OutPoint(txid, vout) !in Unspent(utxos, inputs)
    {
      RareSats.UnspentKeeps(utxos, inputs, OutPoint(txid, vout));
    }
  }

  /** The recipient's output starts with the outgoing sat exactly when it is worth anything at all. */
  lemma OutgoingSatIsDelivered(
    b: Builder, inputs: seq<OutPoint>, outputs: seq<TxOut>, at: nat, starts: Schedule, p: Progress, txid: nat)
    requires Distinct(inputs) && b.Finished(inputs, outputs, at) && Backed(b.wallet, p.ledger.utxos, inputs)
    requires b.outgoing.offset < b.wallet[b.outgoing.outpoint].value
    requires TxValid(p.ledger.utxos, Tx(txid, inputs, outputs))
    ensures var sat := SatAt(p.ledger.utxos[b.outgoing.outpoint].ranges, b.outgoing.offset);
      var after := IndexTx(starts, p, Tx(txid, inputs, outputs)).ledger.utxos;
      Locates(after, sat, SatPoint(OutPoint(txid, at), 0)) <==> outputs[at].value > 0
  {
    var tx := Tx(txid, inputs, outputs);
    OffsetIsPosition(b.wallet, p.ledger.utxos, inputs, b.outgoing);
    OutputHolds(starts, p, tx, at);
    if outputs[at].value > 0 {
      LandsAt(starts, p, tx, at, 0);
    }
  }

  /** The wallet knows what all its outputs are worth. */
  ghost predicate Known(wallet: Wallet, utxos: Utxos) {
    forall x :: x in wallet ==> x in utxos && !IsSpecial(x) && Total(utxos[x].ranges) == wallet[x].value
  }

  ghost predicate IsNew(utxos: Utxos, txid: nat) {
    txid != 0 && forall vout :: OutPoint(txid, vout) !in utxos
  }

  /** The index accepts the transaction and places the outgoing sat at the start of the recipient's output. */
  ghost predicate Delivers(b: Builder, starts: Schedule, p: Progress, tx: Tx) {
    var outpoint, offset, at := b.outgoing.outpoint, b.outgoing.offset, b.RecipientAt();
    && outpoint in p.ledger.utxos && offset < Total(p.ledger.utxos[outpoint].ranges)
    && TxValid(p.ledger.utxos, tx) && at < |tx.outputs| && tx.outputs[at].script == b.recipient
    && Locates(IndexTx(starts, p, tx).ledger.utxos, SatAt(p.ledger.utxos[outpoint].ranges, offset),
         SatPoint(OutPoint(tx.txid, at), 0))
  }

  /** Every transaction that is returned delivers the outgoing sat. */
  lemma ReturnedDelivers(b: Builder, utxos: seq<OutPoint>, starts: Schedule, p: Progress, txid: nat)
    requires b.Requested(utxos) && b.Verdict(utxos).Done?
    requires Known(b.wallet, p.ledger.utxos) && IsNew(p.ledger.utxos, txid)
    ensures Delivers(b, starts, p, Tx(txid, b.Transaction(utxos).0, b.Transaction(utxos).1))
  {
    var inputs, outputs := b.Transaction(utxos).0, b.Transaction(utxos).1;
    b.ReturnedFinishes(utxos);
    b.ReturnedSpends(utxos);
    b.ReturnedPasses(utxos);
    assert Backed(b.wallet, p.ledger.utxos, inputs);
    BuiltIsValid(b, inputs, outputs, b.RecipientAt(), p.ledger.utxos, txid);
    OutgoingSatIsDelivered(b, inputs, outputs, b.RecipientAt(), starts, p, txid);
  }

  /** Building and indexing: whenever a transaction comes back, its outgoing sat is delivered. */
  method BuildAndIndex(b: Builder, ghost starts: Schedule, ghost p: Progress, ghost txid: nat)
    returns (outcome: Outcome)
    requires b.Fresh() && Known(b.wallet, p.ledger.utxos) && IsNew(p.ledger.utxos, txid)
    modifies b
    ensures outcome == b.Verdict(old(b.utxos))
    ensures outcome.Done? ==> Delivers(b, starts, p, Tx(txid, b.inputs, b.outputs))
  {
    ghost var utxos := b.utxos;
    outcome := b.BuildTransaction();
    if outcome.Done? {
      ReturnedDelivers(b, utxos, starts, p, txid);
    }
  }

  lemma {:induction false} OffsetsInOneOutput(wallet: Wallet, inputs: seq<OutPoint>, a: SatPoint, b: SatPoint)
    requires a.outpoint == b.outpoint && a.outpoint in inputs
    ensures SatOffset(wallet, inputs, a) - a.offset == SatOffset(wallet, inputs, b) - b.offset
  {
    if inputs[0] != a.outpoint {
      OffsetsInOneOutput(wallet, inputs[1..], a, b);
    }
  }

  /** A sat before the outgoing one in the same output lands in the first output, as far from its end. */
  lemma LandsFirst(
    wallet: Wallet, outgoing: SatPoint, other: SatPoint, starts: Schedule, p: Progress, tx: Tx) returns (at: nat)
    requires Distinct(tx.inputs) && Backed(wallet, p.ledger.utxos, tx.inputs) && TxValid(p.ledger.utxos, tx)
    requires outgoing.outpoint in tx.inputs && other.outpoint == outgoing.outpoint && other.offset < outgoing.offset
    requires outgoing.offset < wallet[outgoing.outpoint].value
    requires tx.outputs != [] && tx.outputs[0].value == SatOffset(wallet, tx.inputs, outgoing)
    ensures at + (outgoing.offset - other.offset) == tx.outputs[0].value
    ensures other.offset < Total(p.ledger.utxos[other.outpoint].ranges)
    ensures Locates(IndexTx(starts, p, tx).ledger.utxos,
      SatAt(p.ledger.utxos[other.outpoint].ranges, other.offset), SatPoint(OutPoint(tx.txid, 0), at))
  {
    at := SatOffset(wallet, tx.inputs, other);
    OffsetsInOneOutput(wallet, tx.inputs, other, outgoing);
    OffsetIsPosition(wallet, p.ledger.utxos, tx.inputs, other);
    LandsAt(starts, p, tx, 0, at);
    assert OutputTotal(tx.outputs[..0]) == 0;
  }

  /** Every other inscription in the outgoing output goes back to the wallet: the index places its sat in the first
      output, which pays a change address, at least a dust limit before its end. */
  lemma OthersGoBack(
    b: Builder, utxos: seq<OutPoint>, starts: Schedule, p: Progress, txid: nat, i: nat) returns (at: nat)
    requires b.Requested(utxos) && b.Verdict(utxos).Done?
    requires Known(b.wallet, p.ledger.utxos) && IsNew(p.ledger.utxos, txid)
    requires i < |b.inscriptions| && b.inscriptions[i].satpoint.outpoint == b.outgoing.outpoint
    requires b.inscriptions[i].satpoint.offset != b.outgoing.offset
    ensures GoesBack(b, starts, p, Tx(txid, b.Transaction(utxos).0, b.Transaction(utxos).1),
      b.inscriptions[i].satpoint, at)
  {
    var tx, other := Tx(txid, b.Transaction(utxos).0, b.Transaction(utxos).1), b.inscriptions[i].satpoint;
    b.OthersLieBefore(utxos, i);
    FirstOutputDust(b);
    b.ReturnedPads(utxos);
    ReturnedIsBacked(b, utxos, starts, p, txid);
    at := LandsFirst(b.wallet, b.outgoing, other, starts, p, tx);
  }

  ghost predicate GoesBack(b: Builder, starts: Schedule, p: Progress, tx: Tx, other: SatPoint, at: nat) {
    && |b.change| == 2 && tx.outputs != [] && tx.outputs[0].script == b.change[1]
    && at + MinimalNonDust(b.change[1]) <= tx.outputs[0].value
    && TxValid(p.ledger.utxos, tx) && other.outpoint in p.ledger.utxos
    && other.offset < Total(p.ledger.utxos[other.outpoint].ranges)
    && Locates(IndexTx(starts, p, tx).ledger.utxos,
         SatAt(p.ledger.utxos[other.outpoint].ranges, other.offset), SatPoint(OutPoint(tx.txid, 0), at))
  }

  lemma ReturnedIsBacked(b: Builder, utxos: seq<OutPoint>, starts: Schedule, p: Progress, txid: nat)
    requires b.Requested(utxos) && b.Verdict(utxos).Done?
    requires Known(b.wallet, p.ledger.utxos) && IsNew(p.ledger.utxos, txid)
    ensures var tx := Tx(txid, b.Transaction(utxos).0, b.Transaction(utxos).1);
      && Distinct(tx.inputs) && Backed(b.wallet, p.ledger.utxos, tx.inputs) && TxValid(p.ledger.utxos, tx)
      && b.outgoing.outpoint in tx.inputs && b.outgoing.offset < b.wallet[b.outgoing.outpoint].value
  {
    b.ReturnedSpends(utxos);
    ReturnedDelivers(b, utxos, starts, p, txid);
  }

  lemma FirstOutputDust(b: Builder)
    requires |b.change| == 2 && IsAddress(b.change[1])
    ensures MinimalNonDust(b.change[1]) > 0
  {
    AddressDust(b.change[1]);
  }

  /** What the last check prevents: when the recipient's output is worth nothing, the sat lands in the change. */
  lemma EmptyOutputMissesTheSat(
    b: Builder, inputs: seq<OutPoint>, outputs: seq<TxOut>, at: nat, starts: Schedule, p: Progress, txid: nat)
    requires Distinct(inputs) && b.Finished(inputs, outputs, at) && Backed(b.wallet, p.ledger.utxos, inputs)
    requires b.outgoing.offset < b.wallet[b.outgoing.outpoint].value
    requires TxValid(p.ledger.utxos, Tx(txid, inputs, outputs))
    requires outputs[at].value == 0 && at + 1 < |outputs| && outputs[at + 1].value > 0
    ensures var sat := SatAt(p.ledger.utxos[b.outgoing.outpoint].ranges, b.outgoing.offset);
      Locates(IndexTx(starts, p, Tx(txid, inputs, outputs)).ledger.utxos, sat, SatPoint(OutPoint(txid, at + 1), 0))
  {
    OffsetIsPosition(b.wallet, p.ledger.utxos, inputs, b.outgoing);
    OutputTotalSnoc(outputs[..at], outputs[at]);
    assert outputs[..at] + [outputs[at]] == outputs[..at + 1];
    LandsAt(starts, p, Tx(txid, inputs, outputs), at + 1, 0);
  }
}
