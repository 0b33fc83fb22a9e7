/** The parts of Bitcoin's data model that the index and the wallet share. */
module Bitcoin {
  newtype Byte = x: int | 0 <= x < 256

  type Script = seq<Byte>

  datatype OutPoint = OutPoint(txid: nat, vout: nat)

  datatype SatPoint = SatPoint(outpoint: OutPoint, offset: nat)

  datatype TxOut = TxOut(value: nat, script: Script)

  datatype Tx = Tx(txid: nat, inputs: seq<OutPoint>, outputs: seq<TxOut>)

  const NULL: OutPoint := OutPoint(0, 0xffff_ffff)

  const UNBOUND: OutPoint := OutPoint(0, 0)

  /** Where sats that no output claimed are kept. No transaction has the all-zero id. */
  predicate IsSpecial(outpoint: OutPoint) {
    outpoint == NULL || outpoint == UNBOUND
  }

  function Values(outputs: seq<TxOut>): (values: seq<nat>)
    ensures |values| == |outputs|
    ensures forall i :: 0 <= i < |outputs| ==> values[i] == outputs[i].value
  {
    seq(|outputs|, i requires 0 <= i < |outputs| => outputs[i].value)
  }

  // ----- scripts -----

  predicate IsOpReturn(script: Script) {
    script != [] && script[0] == 0x6a
  }

  predicate IsWitnessProgram(script: Script) {
    4 <= |script| <= 42 && (script[0] == 0 || 0x51 <= script[0] <= 0x60) && script[1] as int == |script| - 2
  }

  predicate IsPubkeyHash(script: Script) {
    |script| == 25 && script[..3] == [0x76, 0xa9, 0x14] && script[23..] == [0x88, 0xac]
  }

  predicate IsScriptHash(script: Script) {
    |script| == 23 && script[..2] == [0xa9, 0x14] && script[22] == 0x87
  }

  /** The scripts that have an address. */
  predicate IsAddress(script: Script) {
    || IsPubkeyHash(script)
    || IsScriptHash(script)
    || (IsWitnessProgram(script) && (script[0] == 0 ==> |script| == 22 || |script| == 34))
  }

  // ----- sizes (BIP 141, "Transaction size calculations") -----

  /** Bytes of a compact size integer. */
  function CompactSize(n: nat): nat {
    if n < 0xfd then 1 else if n <= 0xffff then 3 else if n <= 0xffff_ffff then 5 else 9
  }

  function OutputSize(script: Script): nat {
    8 + CompactSize(|script|) + |script|
  }

  /** Below this value an output is not worth spending: three times the cost of its input and output. */
  function MinimalNonDust(script: Script): nat {
    if IsOpReturn(script) then 0
    else if IsWitnessProgram(script) then 3 * (67 + OutputSize(script))
    else 3 * (148 + OutputSize(script))
  }

  /** The dust limits of the usual scripts. */
  lemma DustLimits(script: Script)
    ensures IsPubkeyHash(script) ==> MinimalNonDust(script) == 546
    ensures IsScriptHash(script) ==> MinimalNonDust(script) == 540
    ensures IsWitnessProgram(script) && |script| == 22 ==> MinimalNonDust(script) == 294
    ensures IsWitnessProgram(script) && |script| == 34 ==> MinimalNonDust(script) == 330
    ensures script != [] && script[0] == 0x6a ==> MinimalNonDust(script) == 0
  {
  }
}
