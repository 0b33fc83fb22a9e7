/** What indexing a block does, on values, and the invariants of the sat index.

`IndexBlock` is the specification of the updater: a plain map from outpoint to the
sats it holds, the table of uncommon sats, and the count of lost sats.  The class in
SatIndex.dfy, with its cache and its database, is proved to compute this function.

Everything here holds for any nondecreasing schedule: `starts(h)` is the number of sats
mined before the block at height `h`.
*/
module LedgerModel {
  import opened Bitcoin
  import opened SatRanges

  datatype Entry = Entry(ranges: seq<SatRange>, script: Script)

  type Utxos = map<OutPoint, Entry>

  type RareTable = map<nat, SatPoint>

  datatype Ledger = Ledger(utxos: Utxos, satpoints: RareTable, lost: nat)

  datatype Progress = Progress(ledger: Ledger, fees: seq<SatRange>)

  const EMPTY: Ledger := Ledger(map[], map[], 0)

  type Schedule = nat -> nat

  ghost predicate Nondecreasing(starts: Schedule) {
    forall low: nat, high: nat :: low <= high ==> starts(low) <= starts(high)
  }

  /** The first sat of a block that mines any: the sats the rare-sat table must know. */
  ghost predicate FirstOfBlock(starts: Schedule, sat: nat) {
    exists height: nat :: Opens(starts, height, sat)
  }

  ghost predicate Opens(starts: Schedule, height: nat, sat: nat) {
    starts(height) == sat < starts(height + 1)
  }

  // ----- one transaction -----

  predicate Spendable(utxos: Utxos, inputs: seq<OutPoint>) {
    inputs == [] ||
    (inputs[0] in utxos && !IsSpecial(inputs[0]) && Spendable(utxos - {inputs[0]}, inputs[1..]))
  }

  function SpentRanges(utxos: Utxos, inputs: seq<OutPoint>): seq<SatRange>
    requires Spendable(utxos, inputs)
  {
    if inputs == [] then [] else utxos[inputs[0]].ranges + SpentRanges(utxos - {inputs[0]}, inputs[1..])
  }

  function Unspent(utxos: Utxos, inputs: seq<OutPoint>): Utxos
    requires Spendable(utxos, inputs)
  {
    if inputs == [] then utxos else Unspent(utxos - {inputs[0]}, inputs[1..])
  }

  /** Note where the ranges that start with the first sat of a block now are. */
  ghost function RecordRanges(
    starts: Schedule, table: RareTable, outpoint: OutPoint, ranges: seq<SatRange>, offset: nat): RareTable
    decreases |ranges|
  {
    if ranges == [] then
      table
    else
      var sat := ranges[0].start;
      var noted := if FirstOfBlock(starts, sat) then table[sat := SatPoint(outpoint, offset)] else table;
      RecordRanges(starts, noted, outpoint, ranges[1..], offset + Size(ranges[0]))
  }

  ghost function RecordOutputs(
    starts: Schedule, table: RareTable, txid: nat, outputs: seq<seq<SatRange>>, vout: nat): RareTable
    requires vout <= |outputs|
    decreases |outputs| - vout
  {
    if vout == |outputs| then
      table
    else
      RecordOutputs(
        starts, RecordRanges(starts, table, OutPoint(txid, vout), outputs[vout], 0), txid, outputs, vout + 1)
  }

  function Credit(utxos: Utxos, tx: Tx, outputs: seq<seq<SatRange>>, vout: nat): Utxos
    requires vout <= |outputs| == |tx.outputs|
    decreases |outputs| - vout
  {
    if vout == |outputs| then
      utxos
    else
      Credit(utxos[OutPoint(tx.txid, vout) := Entry(outputs[vout], tx.outputs[vout].script)], tx, outputs, vout + 1)
  }

  ghost function Receive(starts: Schedule, ledger: Ledger, tx: Tx, outputs: seq<seq<SatRange>>): Ledger
    requires |outputs| == |tx.outputs|
  {
    Ledger(
      Credit(ledger.utxos, tx, outputs, 0), RecordOutputs(starts, ledger.satpoints, tx.txid, outputs, 0), ledger.lost)
  }

  /** The outpoints a transaction creates are not unspent already (BIP 30). */
  predicate CreatesFresh(utxos: Utxos, tx: Tx) {
    tx.txid != 0 && forall vout | 0 <= vout < |tx.outputs| :: OutPoint(tx.txid, vout) !in utxos
  }

  predicate TxValid(utxos: Utxos, tx: Tx) {
    && Spendable(utxos, tx.inputs)
    && Sum(Values(tx.outputs)) <= Total(SpentRanges(utxos, tx.inputs))
    && CreatesFresh(Unspent(utxos, tx.inputs), tx)
  }

  ghost function IndexTx(starts: Schedule, p: Progress, tx: Tx): Progress
    requires TxValid(p.ledger.utxos, tx)
  {
    var a := Assign(Values(tx.outputs), SpentRanges(p.ledger.utxos, tx.inputs));
    AssignConserves(Values(tx.outputs), SpentRanges(p.ledger.utxos, tx.inputs));
    var spent := p.ledger.(utxos := Unspent(p.ledger.utxos, tx.inputs));
    Progress(Receive(starts, spent, tx, a.outputs), p.fees + a.leftover)
  }

  // ----- one block -----

  ghost predicate TxsValid(starts: Schedule, p: Progress, txs: seq<Tx>)
    decreases |txs|
  {
    txs == [] || (TxValid(p.ledger.utxos, txs[0]) && TxsValid(starts, IndexTx(starts, p, txs[0]), txs[1..]))
  }

  ghost function IndexTxs(starts: Schedule, p: Progress, txs: seq<Tx>): Progress
    requires TxsValid(starts, p, txs)
    decreases |txs|
  {
    if txs == [] then p else IndexTxs(starts, IndexTx(starts, p, txs[0]), txs[1..])
  }

  /** The sats a block mines. */
  function Minted(start: nat, end: nat): seq<SatRange> {
    if start < end then [SatRange(start, end)] else []
  }

  ghost function Opened(starts: Schedule, ledger: Ledger, height: nat): Progress {
    Progress(ledger, Minted(starts(height), starts(height + 1)))
  }

  /** Every transaction but the coinbase, which comes first in the block and is indexed last. */
  predicate CoinbaseValid(p: Progress, coinbase: Tx) {
    Sum(Values(coinbase.outputs)) <= Total(p.fees) && CreatesFresh(p.ledger.utxos, coinbase)
  }

  ghost predicate BlockValid(starts: Schedule, ledger: Ledger, height: nat, block: seq<Tx>) {
    && block != []
    && TxsValid(starts, Opened(starts, ledger, height), block[1..])
    && CoinbaseValid(IndexTxs(starts, Opened(starts, ledger, height), block[1..]), block[0])
  }

  /** Under-claimed sats are appended to the entry of the null outpoint. */
  ghost function AppendLost(starts: Schedule, ledger: Ledger, lost: seq<SatRange>): Ledger {
    if lost == [] then
      ledger
    else
      var before := if NULL in ledger.utxos then ledger.utxos[NULL].ranges else [];
      Ledger(
        ledger.utxos[NULL := Entry(before + lost, [])],
        RecordRanges(starts, ledger.satpoints, NULL, lost, ledger.lost),
        ledger.lost + Total(lost))
  }

  ghost function IndexCoinbase(starts: Schedule, p: Progress, coinbase: Tx): Ledger
    requires CoinbaseValid(p, coinbase)
  {
    var a := Assign(Values(coinbase.outputs), p.fees);
    AssignConserves(Values(coinbase.outputs), p.fees);
    AppendLost(starts, Receive(starts, p.ledger, coinbase, a.outputs), a.leftover)
  }

  ghost function IndexBlock(starts: Schedule, ledger: Ledger, height: nat, block: seq<Tx>): Ledger
    requires BlockValid(starts, ledger, height, block)
  {
    IndexCoinbase(starts, IndexTxs(starts, Opened(starts, ledger, height), block[1..]), block[0])
  }

  // ----- a chain -----

  ghost predicate ChainValid(starts: Schedule, ledger: Ledger, height: nat, blocks: seq<seq<Tx>>)
    decreases |blocks|
  {
    blocks == [] ||
    (BlockValid(starts, ledger, height, blocks[0])
      && ChainValid(starts, IndexBlock(starts, ledger, height, blocks[0]), height + 1, blocks[1..]))
  }

  ghost function IndexChain(starts: Schedule, ledger: Ledger, height: nat, blocks: seq<seq<Tx>>): Ledger
    requires ChainValid(starts, ledger, height, blocks)
    decreases |blocks|
  {
    if blocks == [] then ledger
    else IndexChain(starts, IndexBlock(starts, ledger, height, blocks[0]), height + 1, blocks[1..])
  }
}
