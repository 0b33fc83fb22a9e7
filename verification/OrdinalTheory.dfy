/** The assignment of ordinals as the BIP "Ordinal Numbers" writes it down: lists of single sats that are cut off
and appended, one transaction after the other.  The index, which keeps ranges, a fee pool and a table, is proved
to hold the same sats in the same order in every output.
*/
module OrdinalTheory {
  import opened Bitcoin
  import opened SatRanges
  import opened LedgerModel
  import opened Conservation
  import RareSats

  // ----- the theory -----

  /** An unspent output: its ordinals in order, and its script. */
  datatype Coin = Coin(ordinals: seq<nat>, script: Script)

  type Coins = map<OutPoint, Coin>

  /** The coins, and ordinals that no output has taken yet. */
  datatype Hand = Hand(coins: Coins, ordinals: seq<nat>)

  function Front(s: seq<nat>, n: nat): seq<nat> {
    if n <= |s| then s[..n] else s
  }

  function Behind(s: seq<nat>, n: nat): seq<nat> {
    if n <= |s| then s[n..] else []
  }

  /** The inputs give up their ordinals, in order. */
  function Collect(coins: Coins, inputs: seq<OutPoint>): Hand {
    if inputs == [] then
      Hand(coins, [])
    else
      var own := if inputs[0] in coins then coins[inputs[0]].ordinals else [];
      var more := Collect(coins - {inputs[0]}, inputs[1..]);
      Hand(more.coins, own + more.ordinals)
  }

  /** Each output takes as many of the first ordinals as it is worth. */
  function HandOut(hand: Hand, tx: Tx, vout: nat): Hand
    requires vout <= |tx.outputs|
    decreases |tx.outputs| - vout
  {
    if vout == |tx.outputs| then
      hand
    else
      var output := tx.outputs[vout];
      var coin := Coin(Front(hand.ordinals, output.value), output.script);
      HandOut(
        Hand(hand.coins[OutPoint(tx.txid, vout) := coin], Behind(hand.ordinals, output.value)), tx, vout + 1)
  }

  /** What is left of the inputs goes behind what the coinbase collects. */
  function AssignTx(pool: Hand, tx: Tx): Hand {
    var collected := Collect(pool.coins, tx.inputs);
    var left := HandOut(collected, tx, 0);
    Hand(left.coins, pool.ordinals + left.ordinals)
  }

  function AssignTxs(pool: Hand, txs: seq<Tx>): Hand
    decreases |txs|
  {
    if txs == [] then pool else AssignTxs(AssignTx(pool, txs[0]), txs[1..])
  }

  /** The coinbase gets the mined ordinals first; what it leaves is lost, behind what was lost before. */
  function AssignBlock(coins: Coins, first: nat, last: nat, block: seq<Tx>): Coins
    requires block != []
  {
    var left := HandOut(AssignTxs(Hand(coins, Span(first, last)), block[1..]), block[0], 0);
    if left.ordinals == [] then
      left.coins
    else
      var before := if NULL in left.coins then left.coins[NULL].ordinals else [];
      left.coins[NULL := Coin(before + left.ordinals, [])]
  }

  ghost function AssignChain(starts: Schedule, coins: Coins, height: nat, blocks: seq<seq<Tx>>): Coins
    decreases |blocks|
  {
    if blocks == [] then coins
    else if blocks[0] == [] then AssignChain(starts, coins, height + 1, blocks[1..])
    else
      AssignChain(
        starts, AssignBlock(coins, starts(height), starts(height + 1), blocks[0]), height + 1, blocks[1..])
  }

  // ----- the index follows it -----

  /** The index's entries, sat by sat. */
  function CoinOf(entry: Entry): Coin {
    Coin(Sats(entry.ranges), entry.script)
  }

  function CoinsOf(utxos: Utxos): Coins {
    map outpoint | outpoint in utxos :: CoinOf(utxos[outpoint])
  }

  lemma CoinsPut(utxos: Utxos, outpoint: OutPoint, entry: Entry)
    ensures CoinsOf(utxos[outpoint := entry]) == CoinsOf(utxos)[outpoint := CoinOf(entry)]
  {
  }

  lemma {:induction false} SpendingFollows(utxos: Utxos, inputs: seq<OutPoint>)
    requires Spendable(utxos, inputs)
    ensures Collect(CoinsOf(utxos), inputs)
         == Hand(CoinsOf(Unspent(utxos, inputs)), Sats(SpentRanges(utxos, inputs)))
  {
    if inputs != [] {
      var rest := utxos - {inputs[0]};
      assert CoinsOf(utxos) - {inputs[0]} == CoinsOf(rest);
      SpendingFollows(rest, inputs[1..]);
      SatsConcat(utxos[inputs[0]].ranges, SpentRanges(rest, inputs[1..]));
    }
  }

  lemma TakeIsFront(ranges: seq<SatRange>, n: nat)
    requires n <= Total(ranges)
    ensures Sats(Take(ranges, n).taken) == Front(Sats(ranges), n)
    ensures Sats(Take(ranges, n).rest) == Behind(Sats(ranges), n)
  {
    TakeCuts(ranges, n);
    SatsLength(ranges);
    SatsLength(Take(ranges, n).taken);
  }

  lemma ValuesFrom(tx: Tx, vout: nat)
    requires vout < |tx.outputs|
    ensures var values := Values(tx.outputs);
      values[vout..] == [tx.outputs[vout].value] + values[vout + 1..]
  {
  }

  lemma AssignHead(value: nat, values: seq<nat>, ranges: seq<SatRange>)
    requires Sum([value] + values) <= Total(ranges)
    ensures value <= Total(ranges) && Sum(values) <= Total(Take(ranges, value).rest)
    ensures var a, more := Assign([value] + values, ranges), Assign(values, Take(ranges, value).rest);
      a.outputs == [Take(ranges, value).taken] + more.outputs && a.leftover == more.leftover
  {
    assert ([value] + values)[1..] == values;
    TakeCuts(ranges, value);
  }

  lemma {:induction false} HandingOutFollows(
    utxos: Utxos, tx: Tx, outputs: seq<seq<SatRange>>, vout: nat, ranges: seq<SatRange>)
    requires vout <= |outputs| == |tx.outputs| && Sum(Values(tx.outputs)[vout..]) <= Total(ranges)
    requires outputs[vout..] == Assign(Values(tx.outputs)[vout..], ranges).outputs
    ensures HandOut(Hand(CoinsOf(utxos), Sats(ranges)), tx, vout)
         == Hand(CoinsOf(Credit(utxos, tx, outputs, vout)), Sats(Assign(Values(tx.outputs)[vout..], ranges).leftover))
    decreases |outputs| - vout
  {
    if vout < |outputs| {
      var value, values := tx.outputs[vout].value, Values(tx.outputs)[vout + 1..];
      var cut := Take(ranges, value);
      ValuesFrom(tx, vout);
      AssignHead(value, values, ranges);
      assert outputs[vout] == outputs[vout..][0] == cut.taken;
      assert outputs[vout + 1..] == outputs[vout..][1..] == Assign(values, cut.rest).outputs;
      TakeIsFront(ranges, value);
      var entry := Entry(cut.taken, tx.outputs[vout].script);
      CoinsPut(utxos, OutPoint(tx.txid, vout), entry);
      HandingOutFollows(utxos[OutPoint(tx.txid, vout) := entry], tx, outputs, vout + 1, cut.rest);
    }
  }

  lemma OutputsFollow(utxos: Utxos, tx: Tx, ranges: seq<SatRange>)
    requires Sum(Values(tx.outputs)) <= Total(ranges)
    ensures var a := Assign(Values(tx.outputs), ranges);
      && |a.outputs| == |tx.outputs|
      && HandOut(Hand(CoinsOf(utxos), Sats(ranges)), tx, 0)
        == Hand(CoinsOf(Credit(utxos, tx, a.outputs, 0)), Sats(a.leftover))
  {
    var a := Assign(Values(tx.outputs), ranges);
    AssignConserves(Values(tx.outputs), ranges);
    assert Values(tx.outputs)[0..] == Values(tx.outputs) && a.outputs[0..] == a.outputs;
    HandingOutFollows(utxos, tx, a.outputs, 0, ranges);
  }

  function HandOf(p: Progress): Hand {
    Hand(CoinsOf(p.ledger.utxos), Sats(p.fees))
  }

  lemma TxFollows(starts: Schedule, p: Progress, tx: Tx)
    requires TxValid(p.ledger.utxos, tx)
    ensures HandOf(IndexTx(starts, p, tx)) == AssignTx(HandOf(p), tx)
  {
    var spent := SpentRanges(p.ledger.utxos, tx.inputs);
    SpendingFollows(p.ledger.utxos, tx.inputs);
    OutputsFollow(Unspent(p.ledger.utxos, tx.inputs), tx, spent);
    SatsConcat(p.fees, Assign(Values(tx.outputs), spent).leftover);
  }

  lemma {:induction false} TxsFollow(starts: Schedule, p: Progress, txs: seq<Tx>)
    requires TxsValid(starts, p, txs)
    ensures HandOf(IndexTxs(starts, p, txs)) == AssignTxs(HandOf(p), txs)
    decreases |txs|
  {
    if txs != [] {
      TxFollows(starts, p, txs[0]);
      TxsFollow(starts, IndexTx(starts, p, txs[0]), txs[1..]);
    }
  }

  lemma MintedIsSpan(start: nat, end: nat)
    ensures Sats(Minted(start, end)) == Span(start, end)
  {
    if start < end {
      SatsHead(SatRange(start, end), []);
      assert [SatRange(start, end)] + [] == [SatRange(start, end)] && Span(start, end) + [] == Span(start, end);
    }
  }

  /** Ranges inside blocks are not empty, so a list of them has sats if it has ranges. */
  lemma SomeSats(starts: Schedule, ranges: seq<SatRange>)
    requires RareSats.InBlocks(starts, ranges) && ranges != []
    ensures Sats(ranges) != []
  {
    assert RareSats.WithinBlock(starts, ranges[0]);
    SatsLength(ranges);
  }

  lemma LosingFollows(starts: Schedule, ledger: Ledger, lost: seq<SatRange>)
    requires RareSats.InBlocks(starts, lost)
    ensures CoinsOf(AppendLost(starts, ledger, lost).utxos)
      == if Sats(lost) == [] then CoinsOf(ledger.utxos)
         else
           var before := if NULL in ledger.utxos then Sats(ledger.utxos[NULL].ranges) else [];
           CoinsOf(ledger.utxos)[NULL := Coin(before + Sats(lost), [])]
  {
    if lost != [] {
      SomeSats(starts, lost);
      var before := if NULL in ledger.utxos then ledger.utxos[NULL].ranges else [];
      SatsConcat(before, lost);
      CoinsPut(ledger.utxos, NULL, Entry(before + lost, []));
    }
  }

  /** Indexing a block holds the ordinals as the theory assigns them. */
  lemma BlockFollows(starts: Schedule, ledger: Ledger, height: nat, block: seq<Tx>)
    requires Nondecreasing(starts) && RareSats.Sound(starts, ledger, height)
    requires BlockValid(starts, ledger, height, block)
    ensures CoinsOf(IndexBlock(starts, ledger, height, block).utxos)
         == AssignBlock(CoinsOf(ledger.utxos), starts(height), starts(height + 1), block)
  {
    var start := Opened(starts, ledger, height);
    var p := IndexTxs(starts, start, block[1..]);
    MintedIsSpan(starts(height), starts(height + 1));
    TxsFollow(starts, start, block[1..]);
    OutputsFollow(p.ledger.utxos, block[0], p.fees);
    RareSats.OpenedMidway(starts, ledger, height);
    RareSats.IndexTxsMidway(starts, start, block[1..], starts(height + 1));
    CoinbaseLoses(starts, p, block[0]);
  }

  lemma CoinbaseLoses(starts: Schedule, p: Progress, coinbase: Tx)
    requires CoinbaseValid(p, coinbase) && RareSats.InBlocks(starts, p.fees)
    requires var a := Assign(Values(coinbase.outputs), p.fees);
      && |a.outputs| == |coinbase.outputs|
      && HandOut(HandOf(p), coinbase, 0)
        == Hand(CoinsOf(Credit(p.ledger.utxos, coinbase, a.outputs, 0)), Sats(a.leftover))
    ensures var left := HandOut(HandOf(p), coinbase, 0);
      CoinsOf(IndexCoinbase(starts, p, coinbase).utxos)
        == if left.ordinals == [] then left.coins
           else
             var before := if NULL in left.coins then left.coins[NULL].ordinals else [];
             left.coins[NULL := Coin(before + left.ordinals, [])]
  {
    var a := Assign(Values(coinbase.outputs), p.fees);
    RareSats.AssignInBlocks(starts, Values(coinbase.outputs), p.fees);
    LosingFollows(starts, Receive(starts, p.ledger, coinbase, a.outputs), a.leftover);
  }

  /** After every chain of valid blocks every output holds just the ordinals that the theory assigns to it, in
      their order, and nothing else is an output. */
  lemma {:induction false} ChainFollows(starts: Schedule, ledger: Ledger, height: nat, blocks: seq<seq<Tx>>)
    requires Nondecreasing(starts) && RareSats.Sound(starts, ledger, height)
    requires ChainValid(starts, ledger, height, blocks)
    ensures CoinsOf(IndexChain(starts, ledger, height, blocks).utxos)
         == AssignChain(starts, CoinsOf(ledger.utxos), height, blocks)
    decreases |blocks|
  {
    if blocks != [] {
      BlockFollows(starts, ledger, height, blocks[0]);
      RareSats.IndexBlockSound(starts, ledger, height, blocks[0]);
      ChainFollows(starts, IndexBlock(starts, ledger, height, blocks[0]), height + 1, blocks[1..]);
    }
  }

  // ----- places in a block -----

  lemma {:induction false} HandOutKeeps(hand: Hand, tx: Tx, vout: nat, outpoint: OutPoint)
    requires vout <= |tx.outputs| && (outpoint.txid != tx.txid || outpoint.vout < vout)
    requires outpoint in hand.coins
    ensures outpoint in HandOut(hand, tx, vout).coins
    ensures HandOut(hand, tx, vout).coins[outpoint] == hand.coins[outpoint]
    decreases |tx.outputs| - vout
  {
    if vout < |tx.outputs| {
      var output := tx.outputs[vout];
      var coin := Coin(Front(hand.ordinals, output.value), output.script);
      HandOutKeeps(
        Hand(hand.coins[OutPoint(tx.txid, vout) := coin], Behind(hand.ordinals, output.value)), tx, vout + 1, outpoint);
    }
  }

  lemma SumFrom(tx: Tx, vout: nat, j: nat)
    requires vout < j <= |tx.outputs|
    ensures var values := Values(tx.outputs); Sum(values[vout..j]) == values[vout] + Sum(values[vout + 1..j])
  {
    var values := Values(tx.outputs);
    assert values[vout..j][1..] == values[vout + 1..j];
  }

  /** Ordinal `k` of output `j` is the one that stands `k` places behind what the earlier outputs take. */
  lemma {:induction false} HandOutAt(hand: Hand, tx: Tx, vout: nat, j: nat, k: nat)
    requires vout <= j < |tx.outputs| && k < tx.outputs[j].value
    requires Sum(Values(tx.outputs)[vout..j]) + tx.outputs[j].value <= |hand.ordinals|
    ensures var coins, at := HandOut(hand, tx, vout).coins, OutPoint(tx.txid, j);
      && at in coins && |coins[at].ordinals| == tx.outputs[j].value
      && coins[at].ordinals[k] == hand.ordinals[Sum(Values(tx.outputs)[vout..j]) + k]
    decreases j - vout
  {
    var output := tx.outputs[vout];
    var coin := Coin(Front(hand.ordinals, output.value), output.script);
    var next := Hand(hand.coins[OutPoint(tx.txid, vout) := coin], Behind(hand.ordinals, output.value));
    if vout == j {
      HandOutKeeps(next, tx, vout + 1, OutPoint(tx.txid, j));
    } else {
      SumFrom(tx, vout, j);
      HandOutAt(next, tx, vout + 1, j, k);
    }
  }

  /** Nothing that is already pooled moves: later fees go behind it. */
  lemma {:induction false} PoolGrows(pool: Hand, txs: seq<Tx>)
    ensures pool.ordinals <= AssignTxs(pool, txs).ordinals
    decreases |txs|
  {
    if txs != [] {
      PoolGrows(AssignTx(pool, txs[0]), txs[1..]);
    }
  }

  /** What the coinbase collects: the mined ordinals, then the fee of each transaction in the order of the block. */
  ghost function Pool(starts: Schedule, ledger: Ledger, height: nat, txs: seq<Tx>): seq<nat> {
    AssignTxs(Hand(CoinsOf(ledger.utxos), Span(starts(height), starts(height + 1))), txs).ordinals
  }

  lemma {:induction false} TotalLeft(hand: Hand, tx: Tx, vout: nat)
    requires vout <= |tx.outputs|
    ensures HandOut(hand, tx, vout).ordinals == Behind(hand.ordinals, Sum(Values(tx.outputs)[vout..]))
    decreases |tx.outputs| - vout
  {
    if vout < |tx.outputs| {
      var output := tx.outputs[vout];
      var coin := Coin(Front(hand.ordinals, output.value), output.script);
      ValuesFrom(tx, vout);
      assert Values(tx.outputs)[vout..][1..] == Values(tx.outputs)[vout + 1..];
      TotalLeft(
        Hand(hand.coins[OutPoint(tx.txid, vout) := coin], Behind(hand.ordinals, output.value)), tx, vout + 1);
    }
  }

  /** The fee of one more transaction: its inputs' ordinals but for the first ones, which its outputs take. */
  lemma {:induction false} PoolSnoc(pool: Hand, txs: seq<Tx>, tx: Tx)
    ensures var before := AssignTxs(pool, txs);
      AssignTxs(pool, txs + [tx]).ordinals
        == before.ordinals + Behind(Collect(before.coins, tx.inputs).ordinals, Sum(Values(tx.outputs)))
    decreases |txs|
  {
    if txs == [] {
      assert txs + [tx] == [tx] && [tx][1..] == [];
      assert Values(tx.outputs)[0..] == Values(tx.outputs);
      TotalLeft(Collect(pool.coins, tx.inputs), tx, 0);
    } else {
      assert (txs + [tx])[1..] == txs[1..] + [tx];
      PoolSnoc(AssignTx(pool, txs[0]), txs[1..], tx);
    }
  }

  lemma LocatesOrdinal(utxos: Utxos, outpoint: OutPoint, k: nat)
    requires outpoint in utxos && k < |CoinsOf(utxos)[outpoint].ordinals|
    ensures Locates(utxos, CoinsOf(utxos)[outpoint].ordinals[k], SatPoint(outpoint, k))
  {
    SatsLength(utxos[outpoint].ranges);
    SatAtIsIndex(utxos[outpoint].ranges, k);
  }

  lemma AssignBlockAt(coins: Coins, first: nat, last: nat, block: seq<Tx>, j: nat, k: nat)
    requires block != [] && block[0].txid != 0 && j < |block[0].outputs| && k < block[0].outputs[j].value
    requires Sum(Values(block[0].outputs)) <= |AssignTxs(Hand(coins, Span(first, last)), block[1..]).ordinals|
    ensures var pool := AssignTxs(Hand(coins, Span(first, last)), block[1..]).ordinals;
      var after, outpoint := AssignBlock(coins, first, last, block), OutPoint(block[0].txid, j);
      var at := Sum(Values(block[0].outputs)[..j]) + k;
      && at < |pool| && outpoint in after && k < |after[outpoint].ordinals| && after[outpoint].ordinals[k] == pool[at]
  {
    var values := Values(block[0].outputs);
    SumPrefix(values, j);
    assert values[0..j] == values[..j];
    HandOutAt(AssignTxs(Hand(coins, Span(first, last)), block[1..]), block[0], 0, j, k);
  }

  /** The index finds at place `k` of coinbase output `j` the sat that stands `k` places behind what the earlier
      outputs take of the pool. */
  lemma CoinbaseLandsAt(starts: Schedule, ledger: Ledger, height: nat, block: seq<Tx>, j: nat, k: nat)
    requires Nondecreasing(starts) && RareSats.Sound(starts, ledger, height)
    requires BlockValid(starts, ledger, height, block)
    requires j < |block[0].outputs| && k < block[0].outputs[j].value
    ensures var pool, at := Pool(starts, ledger, height, block[1..]), Sum(Values(block[0].outputs)[..j]) + k;
      && at < |pool|
      && Locates(IndexBlock(starts, ledger, height, block).utxos, pool[at], SatPoint(OutPoint(block[0].txid, j), k))
  {
    PoolHasEnough(starts, ledger, height, block);
    AssignBlockAt(CoinsOf(ledger.utxos), starts(height), starts(height + 1), block, j, k);
    BlockFollows(starts, ledger, height, block);
    LocatesOrdinal(IndexBlock(starts, ledger, height, block).utxos, OutPoint(block[0].txid, j), k);
  }

  lemma PoolHasEnough(starts: Schedule, ledger: Ledger, height: nat, block: seq<Tx>)
    requires BlockValid(starts, ledger, height, block)
    ensures Sum(Values(block[0].outputs)) <= |Pool(starts, ledger, height, block[1..])| && block[0].txid != 0
  {
    var start := Opened(starts, ledger, height);
    MintedIsSpan(starts(height), starts(height + 1));
    TxsFollow(starts, start, block[1..]);
    SatsLength(IndexTxs(starts, start, block[1..]).fees);
  }

  /** So the mined sats come first: as long as outputs reach, sat `i` of the block is at place `i` of its coinbase. */
  lemma MinedSatsLead(starts: Schedule, ledger: Ledger, height: nat, block: seq<Tx>, j: nat, k: nat)
    requires Nondecreasing(starts) && RareSats.Sound(starts, ledger, height)
    requires BlockValid(starts, ledger, height, block)
    requires j < |block[0].outputs| && k < block[0].outputs[j].value
    requires Sum(Values(block[0].outputs)[..j]) + k < starts(height + 1) - starts(height)
    ensures Locates(
      IndexBlock(starts, ledger, height, block).utxos, starts(height) + Sum(Values(block[0].outputs)[..j]) + k,
      SatPoint(OutPoint(block[0].txid, j), k))
  {
    CoinbaseLandsAt(starts, ledger, height, block, j, k);
    PoolGrows(Hand(CoinsOf(ledger.utxos), Span(starts(height), starts(height + 1))), block[1..]);
    SpanAt(starts(height), starts(height + 1));
  }
}
