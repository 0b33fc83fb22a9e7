/** The checks that a built transaction goes through before it is returned. */
module BuildChecks {
  import opened Options
  import opened Bitcoin
  import opened CoinSelection

  /** How often an outpoint is spent. */
  function Spends(inputs: seq<OutPoint>, outpoint: OutPoint): nat {
    if inputs == [] then 0 else (if inputs[0] == outpoint then 1 else 0) + Spends(inputs[1..], outpoint)
  }

  /** How many outputs pay a script. */
  function Payments(outputs: seq<TxOut>, script: Script): nat {
    if outputs == [] then 0 else (if outputs[0].script == script then 1 else 0) + Payments(outputs[1..], script)
  }

  /** The first output that ends beyond the offset, when the outputs start at `start`. */
  function FirstEnding(outputs: seq<TxOut>, start: nat, offset: nat): Option<TxOut> {
    if outputs == [] then None
    else if start + outputs[0].value > offset then Some(outputs[0])
    else FirstEnding(outputs[1..], start + outputs[0].value, offset)
  }

  /** What an output to the recipient may be worth, and who else may be paid. */
  datatype Terms = Terms(recipient: Script, change: seq<Script>, low: nat, high: nat)

  /** Every output pays change or, at the offset and within the bounds, the recipient. */
  predicate WellPlaced(outputs: seq<TxOut>, terms: Terms, start: nat, offset: nat) {
    outputs == [] ||
    ((if outputs[0].script == terms.recipient then terms.low <= outputs[0].value <= terms.high && start == offset
      else outputs[0].script in terms.change)
    && WellPlaced(outputs[1..], terms, start + outputs[0].value, offset))
  }

  predicate NoDust(outputs: seq<TxOut>) {
    forall i :: 0 <= i < |outputs| ==> outputs[i].value >= MinimalNonDust(outputs[i].script)
  }

  // ----- what the checks come to -----

  /** Output `at` is the only one to the recipient, and all others pay different change addresses. */
  predicate OneRecipient(outputs: seq<TxOut>, recipient: Script, change: seq<Script>, at: nat) {
    && at < |outputs| && outputs[at].script == recipient
    && (forall i :: 0 <= i < |outputs| && i != at ==> outputs[i].script in change && outputs[i].script != recipient)
    && (forall i, j :: 0 <= i < j < |outputs| ==> outputs[i].script != outputs[j].script)
  }

  lemma {:induction false} SpentOnce(inputs: seq<OutPoint>, outpoint: OutPoint)
    requires Distinct(inputs)
    ensures Spends(inputs, outpoint) == if outpoint in inputs then 1 else 0
  {
    if inputs != [] {
      SpentOnce(inputs[1..], outpoint);
    }
  }

  lemma {:induction false} PaidAtMostOnce(outputs: seq<TxOut>, script: Script)
    requires forall i, j :: 0 <= i < j < |outputs| ==> outputs[i].script != outputs[j].script
    ensures Payments(outputs, script) <= 1
    ensures Payments(outputs, script) == 1 <==> exists i :: 0 <= i < |outputs| && outputs[i].script == script
  {
    if outputs != [] {
      var rest := outputs[1..];
      forall i, j | 0 <= i < j < |rest|
        ensures rest[i].script != rest[j].script
      {
        assert rest[i] == outputs[i + 1] && rest[j] == outputs[j + 1];
      }
      PaidAtMostOnce(rest, script);
      forall k | 0 <= k < |rest|
        ensures rest[k].script != outputs[0].script
      {
        assert rest[k] == outputs[k + 1];
      }
      if i :| 0 < i < |outputs| && outputs[i].script == script {
        assert rest[i - 1].script == script;
      }
    }
  }

  /** The first output that ends beyond the offset of the recipient's output is that output exactly
      when it is worth anything. */
  lemma {:induction false} EndsWithRecipient(
    outputs: seq<TxOut>, recipient: Script, at: nat, start: nat, offset: nat)
    requires at < |outputs| && outputs[at].script == recipient
    requires forall i :: 0 <= i < |outputs| && i != at ==> outputs[i].script != recipient
    requires offset == start + OutputTotal(outputs[..at])
    ensures var first := FirstEnding(outputs, start, offset);
      first.Some? && first.value.script == recipient <==> outputs[at].value > 0
  {
    if at == 0 {
      if outputs[0].value == 0 {
        NoRecipient(outputs[1..], recipient, start, offset);
      }
    } else {
      assert outputs[..at][1..] == outputs[1..][..at - 1];
      EndsWithRecipient(outputs[1..], recipient, at - 1, start + outputs[0].value, offset);
    }
  }

  lemma {:induction false} NoRecipient(outputs: seq<TxOut>, recipient: Script, start: nat, offset: nat)
    requires forall i :: 0 <= i < |outputs| ==> outputs[i].script != recipient
    ensures var first := FirstEnding(outputs, start, offset);
      first.Some? ==> first.value.script != recipient
  {
    if outputs != [] {
      NoRecipient(outputs[1..], recipient, start + outputs[0].value, offset);
    }
  }

  lemma {:induction false} PlacedExactly(outputs: seq<TxOut>, terms: Terms, at: nat, start: nat, offset: nat)
    requires at < |outputs| && outputs[at].script == terms.recipient
    requires forall i :: 0 <= i < |outputs| && i != at ==>
      outputs[i].script in terms.change && outputs[i].script != terms.recipient
    requires offset == start + OutputTotal(outputs[..at])
    ensures WellPlaced(outputs, terms, start, offset) <==> terms.low <= outputs[at].value <= terms.high
  {
    if at == 0 {
      ChangeIsPlaced(outputs[1..], terms, start + outputs[0].value, offset);
    } else {
      assert outputs[..at][1..] == outputs[1..][..at - 1];
      PlacedExactly(outputs[1..], terms, at - 1, start + outputs[0].value, offset);
    }
  }

  lemma {:induction false} ChangeIsPlaced(outputs: seq<TxOut>, terms: Terms, start: nat, offset: nat)
    requires forall i :: 0 <= i < |outputs| ==>
      outputs[i].script in terms.change && outputs[i].script != terms.recipient
    ensures WellPlaced(outputs, terms, start, offset)
  {
    if outputs != [] {
      ChangeIsPlaced(outputs[1..], terms, start + outputs[0].value, offset);
    }
  }

  // ----- the loops -----

  method CountSpends(inputs: seq<OutPoint>, outpoint: OutPoint) returns (count: nat)
    ensures count == Spends(inputs, outpoint)
  {
    count := 0;
    var todo := inputs;
    while todo != []
      invariant count + Spends(todo, outpoint) == Spends(inputs, outpoint)
      decreases |todo|
    {
      count := count + if todo[0] == outpoint then 1 else 0;
      todo := todo[1..];
    }
  }

  method CountPayments(outputs: seq<TxOut>, script: Script) returns (count: nat)
    ensures count == Payments(outputs, script)
  {
    count := 0;
    var todo := outputs;
    while todo != []
      invariant count + Payments(todo, script) == Payments(outputs, script)
      decreases |todo|
    {
      count := count + if todo[0].script == script then 1 else 0;
      todo := todo[1..];
    }
  }

  method FindEnding(outputs: seq<TxOut>, offset: nat) returns (first: Option<TxOut>)
    ensures first == FirstEnding(outputs, 0, offset)
  {
    var todo, end := outputs, 0;
    while todo != []
      invariant 0 <= end
      invariant FirstEnding(todo, end, offset) == FirstEnding(outputs, 0, offset)
      decreases |todo|
    {
      if end + todo[0].value > offset {
        return Some(todo[0]);
      }
      end := end + todo[0].value;
      todo := todo[1..];
    }
    return None;
  }

  method CheckPlaces(outputs: seq<TxOut>, terms: Terms, satOffset: nat) returns (fine: bool)
    ensures fine == WellPlaced(outputs, terms, 0, satOffset)
  {
    var todo, offset := outputs, 0;
    while todo != []
      invariant 0 <= offset
      invariant WellPlaced(todo, terms, offset, satOffset) == WellPlaced(outputs, terms, 0, satOffset)
      decreases |todo|
    {
      var output := todo[0];
      if output.script == terms.recipient {
        if output.value < terms.low || output.value > terms.high || offset != satOffset {
          return false;
        }
      } else if output.script !in terms.change {
        return false;
      }
      offset := offset + output.value;
      todo := todo[1..];
    }
    return true;
  }

  /** What the inputs bring in beyond the outputs; nothing when the subtraction would underflow. */
  method ActualFee(wallet: Wallet, inputs: seq<OutPoint>, outputs: seq<TxOut>) returns (fee: Option<nat>)
    ensures fee == if InputTotal(wallet, inputs) >= OutputTotal(outputs)
      then Some(InputTotal(wallet, inputs) - OutputTotal(outputs)) else None
  {
    var left := 0;
    var spent := inputs;
    while spent != []
      invariant 0 <= left
      invariant left + InputTotal(wallet, spent) == InputTotal(wallet, inputs)
      decreases |spent|
    {
      left := left + Amount(wallet, spent[0]);
      spent := spent[1..];
    }
    var todo := outputs;
    while todo != []
      invariant 0 <= left
      invariant left - OutputTotal(todo) == InputTotal(wallet, inputs) - OutputTotal(outputs)
      decreases |todo|
    {
      if left < todo[0].value {
        return None;
      }
      left := left - todo[0].value;
      todo := todo[1..];
    }
    return Some(left);
  }

  method CheckDust(outputs: seq<TxOut>) returns (fine: bool)
    ensures fine == NoDust(outputs)
  {
    for i := 0 to |outputs|
      invariant forall j :: 0 <= j < i ==> outputs[j].value >= MinimalNonDust(outputs[j].script)
    {
      if outputs[i].value < MinimalNonDust(outputs[i].script) {
        return false;
      }
    }
    return true;
  }
}
