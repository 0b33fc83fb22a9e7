/** Choosing inputs: which unspent output is taken next, and which are taken in all. */
module CoinSelection {
  import opened Options
  import opened Bitcoin

  const U64_MAX: nat := 0xffff_ffff_ffff_ffff

  type Wallet = map<OutPoint, TxOut>

  // ----- books -----

  function Amount(wallet: Wallet, outpoint: OutPoint): nat {
    if outpoint in wallet then wallet[outpoint].value else 0
  }

  function InputTotal(wallet: Wallet, inputs: seq<OutPoint>): nat {
    if inputs == [] then 0 else Amount(wallet, inputs[0]) + InputTotal(wallet, inputs[1..])
  }

  function OutputTotal(outputs: seq<TxOut>): nat {
    if outputs == [] then 0 else outputs[0].value + OutputTotal(outputs[1..])
  }

  /** How many sats the inputs bring in before the outgoing one. */
  function SatOffset(wallet: Wallet, inputs: seq<OutPoint>, outgoing: SatPoint): nat
    requires outgoing.outpoint in inputs
  {
    if inputs[0] == outgoing.outpoint then
      outgoing.offset
    else
      Amount(wallet, inputs[0]) + SatOffset(wallet, inputs[1..], outgoing)
  }

  predicate Distinct(s: seq<OutPoint>) {
    s == [] || (s[0] !in s[1..] && Distinct(s[1..]))
  }

  /** The list without the first occurrence of `x`. */
  function Without(s: seq<OutPoint>, x: OutPoint): seq<OutPoint> {
    if s == [] then [] else if s[0] == x then s[1..] else [s[0]] + Without(s[1..], x)
  }

  lemma {:induction false} WithoutKeeps(s: seq<OutPoint>, x: OutPoint)
    requires Distinct(s) && x in s
    ensures Distinct(Without(s, x)) && |Without(s, x)| == |s| - 1
    ensures forall y :: y in Without(s, x) <==> y in s && y != x
  {
    if s[0] != x {
      WithoutKeeps(s[1..], x);
      var rest := Without(s[1..], x);
      assert ([s[0]] + rest)[1..] == rest;
    }
  }

  lemma {:induction false} InputTotalConcat(wallet: Wallet, a: seq<OutPoint>, b: seq<OutPoint>)
    ensures InputTotal(wallet, a + b) == InputTotal(wallet, a) + InputTotal(wallet, b)
  {
    if a == [] {
      assert a + b == b;
    } else {
      assert (a + b)[1..] == a[1..] + b;
      InputTotalConcat(wallet, a[1..], b);
    }
  }

  // ----- coin selection -----

  function AbsDiff(a: nat, b: nat): nat {
    if a < b then b - a else a - b
  }

  predicate Preferred(value: nat, target: nat, under: bool) {
    if under then value <= target else value >= target
  }

  /** `a` serves better than `b`: it is on the preferred side and `b` is not, or they are
      on the same side and it is strictly closer. */
  predicate Better(a: nat, b: nat, target: nat, under: bool) {
    if Preferred(a, target, under) == Preferred(b, target, under) then
      AbsDiff(a, target) < AbsDiff(b, target)
    else
      Preferred(a, target, under)
  }

  /** Position `k` holds the first of the best candidates. */
  ghost predicate BestAt(
    wallet: Wallet, utxos: seq<OutPoint>, barred: set<OutPoint>, target: nat, under: bool, k: nat)
  {
    && k < |utxos| && utxos[k] !in barred
    && forall j | 0 <= j < |utxos| && utxos[j] !in barred ::
      && !Better(Amount(wallet, utxos[j]), Amount(wallet, utxos[k]), target, under)
      && (j < k ==> Better(Amount(wallet, utxos[k]), Amount(wallet, utxos[j]), target, under))
  }

  /** What the best candidate is: the closest on the preferred side when there is one
      there, the closest overall when there is none. */
  lemma BestIsClosest(
    wallet: Wallet, utxos: seq<OutPoint>, barred: set<OutPoint>, target: nat, under: bool, k: nat, j: nat)
    requires BestAt(wallet, utxos, barred, target, under, k) && j < |utxos| && utxos[j] !in barred
    ensures Preferred(Amount(wallet, utxos[j]), target, under) ==>
      && Preferred(Amount(wallet, utxos[k]), target, under)
      && AbsDiff(Amount(wallet, utxos[k]), target) <= AbsDiff(Amount(wallet, utxos[j]), target)
    ensures !Preferred(Amount(wallet, utxos[k]), target, under) ==>
      AbsDiff(Amount(wallet, utxos[k]), target) <= AbsDiff(Amount(wallet, utxos[j]), target)
  {
    assert !Better(Amount(wallet, utxos[j]), Amount(wallet, utxos[k]), target, under);
  }

  /** `coin` is worth the most of those worth at most the target, or the least of all when all are worth more. */
  ghost predicate LargestWithin(wallet: Wallet, candidates: set<OutPoint>, target: nat, coin: OutPoint) {
    coin in candidates && forall x <- candidates ::
      && (Amount(wallet, x) <= target ==> Amount(wallet, x) <= Amount(wallet, coin) <= target)
      && (Amount(wallet, coin) > target ==> Amount(wallet, coin) <= Amount(wallet, x))
  }

  /** `coin` is worth the least of those worth at least the target, or the most of all when all are worth less. */
  ghost predicate SmallestBeyond(wallet: Wallet, candidates: set<OutPoint>, target: nat, coin: OutPoint) {
    coin in candidates && forall x <- candidates ::
      && (Amount(wallet, x) >= target ==> target <= Amount(wallet, coin) <= Amount(wallet, x))
      && (Amount(wallet, coin) < target ==> Amount(wallet, x) <= Amount(wallet, coin))
  }

  /** What is picked, by its worth. */
  lemma PickByWorth(
    wallet: Wallet, utxos: seq<OutPoint>, barred: set<OutPoint>, target: nat, under: bool, candidates: set<OutPoint>)
    requires forall x :: x in candidates <==> x in utxos && x !in barred
    ensures var pick := Pick(wallet, utxos, barred, target, under);
      && (pick.None? <==> candidates == {})
      && (pick.Some? ==>
        if under then LargestWithin(wallet, candidates, target, pick.value)
        else SmallestBeyond(wallet, candidates, target, pick.value))
  {
    var k := PickIsBest(wallet, utxos, barred, target, under);
    if Pick(wallet, utxos, barred, target, under).Some? {
      forall x <- candidates
        ensures IsNoBetter(wallet, target, under, utxos[k], x)
      {
        var j :| 0 <= j < |utxos| && utxos[j] == x;
        BestIsClosest(wallet, utxos, barred, target, under, k, j);
      }
    }
  }

  /** How the worth of another candidate compares. */
  ghost predicate IsNoBetter(wallet: Wallet, target: nat, under: bool, coin: OutPoint, x: OutPoint) {
    if under then
      && (Amount(wallet, x) <= target ==> Amount(wallet, x) <= Amount(wallet, coin) <= target)
      && (Amount(wallet, coin) > target ==> Amount(wallet, coin) <= Amount(wallet, x))
    else
      && (Amount(wallet, x) >= target ==> target <= Amount(wallet, coin) <= Amount(wallet, x))
      && (Amount(wallet, coin) < target ==> Amount(wallet, x) <= Amount(wallet, coin))
  }

  /** The choice after looking at one more candidate. */
  function Keep(wallet: Wallet, barred: set<OutPoint>, target: nat, under: bool, best: Option<OutPoint>, utxo: OutPoint)
      : Option<OutPoint> {
    if utxo in barred then best
    else if best.None? || Better(Amount(wallet, utxo), Amount(wallet, best.value), target, under) then Some(utxo)
    else best
  }

  function Scan(
    wallet: Wallet, rest: seq<OutPoint>, barred: set<OutPoint>, target: nat, under: bool, best: Option<OutPoint>)
      : (pick: Option<OutPoint>)
    ensures pick.Some? && pick != best ==> pick.value in rest && pick.value !in barred
    decreases |rest|
  {
    if rest == [] then best
    else Scan(wallet, rest[1..], barred, target, under, Keep(wallet, barred, target, under, best, rest[0]))
  }

  function Pick(wallet: Wallet, utxos: seq<OutPoint>, barred: set<OutPoint>, target: nat, under: bool)
      : (pick: Option<OutPoint>)
    ensures pick.Some? ==> pick.value in utxos && pick.value !in barred
  {
    Scan(wallet, utxos, barred, target, under, None)
  }

  /** The scan finds the first of the best candidates, and nothing only when there are none. */
  lemma PickIsBest(wallet: Wallet, utxos: seq<OutPoint>, barred: set<OutPoint>, target: nat, under: bool)
      returns (k: nat)
    ensures var pick := Pick(wallet, utxos, barred, target, under);
      && (pick.None? <==> forall j :: 0 <= j < |utxos| ==> utxos[j] in barred)
      && (pick.Some? ==> BestAt(wallet, utxos, barred, target, under, k) && pick == Some(utxos[k]))
  {
    k := ScanIsBest(wallet, utxos, barred, target, under, 0, None, 0);
    assert utxos[0..] == utxos;
  }

  lemma {:induction false} ScanIsBest(
    wallet: Wallet, utxos: seq<OutPoint>, barred: set<OutPoint>, target: nat, under: bool,
    n: nat, best: Option<OutPoint>, at: nat)
      returns (k: nat)
    requires n <= |utxos|
    requires best.None? ==> forall j :: 0 <= j < n ==> utxos[j] in barred
    requires best.Some? ==>
      at < n && BestAt(wallet, utxos[..n], barred, target, under, at) && best == Some(utxos[at])
    ensures var pick := Scan(wallet, utxos[n..], barred, target, under, best);
      && (pick.None? <==> forall j :: 0 <= j < |utxos| ==> utxos[j] in barred)
      && (pick.Some? ==> BestAt(wallet, utxos, barred, target, under, k) && pick == Some(utxos[k]))
    decreases |utxos| - n
  {
    if n == |utxos| {
      assert utxos[..n] == utxos;
      k := at;
    } else {
      var next := Keep(wallet, barred, target, under, best, utxos[n]);
      var now := at;
      if utxos[n] !in barred
        && (best.None? || Better(Amount(wallet, utxos[n]), Amount(wallet, best.value), target, under))
      {
        now := n;
      }
      var longer := utxos[..n + 1];
      assert forall j :: 0 <= j < n ==> longer[j] == utxos[..n][j];
      if next.Some? {
        assert BestAt(wallet, longer, barred, target, under, now);
      }
      assert utxos[n..][1..] == utxos[n + 1..];
      k := ScanIsBest(wallet, utxos, barred, target, under, n + 1, next, now);
    }
  }

  // ----- the coins a stage takes -----

  datatype Plan = Coins(coins: seq<OutPoint>) | Short | TooLarge

  function Then(coin: OutPoint, rest: Plan): Plan {
    if rest.Coins? then Coins([coin] + rest.coins) else rest
  }

  function WithoutAll(utxos: seq<OutPoint>, coins: seq<OutPoint>): seq<OutPoint>
    decreases |coins|
  {
    if coins == [] then utxos else WithoutAll(Without(utxos, coins[0]), coins[1..])
  }

  function Reversed(s: seq<OutPoint>): seq<OutPoint> {
    if s == [] then [] else Reversed(s[1..]) + [s[0]]
  }

  lemma WithoutShorter(s: seq<OutPoint>, x: OutPoint)
    requires x in s
    ensures |Without(s, x)| == |s| - 1
  {
  }

  /** Small coins are taken until `value` reaches `goal`. */
  function PadPlan(wallet: Wallet, utxos: seq<OutPoint>, barred: set<OutPoint>, value: nat, goal: nat): Plan
    decreases |utxos|
  {
    if value >= goal then Coins([])
    else
      var pick := Pick(wallet, utxos, barred, goal - value, true);
      if pick.None? then Short
      else
        WithoutShorter(utxos, pick.value);
        Then(pick.value,
          PadPlan(wallet, Without(utxos, pick.value), barred, value + Amount(wallet, pick.value), goal))
  }

  /** Coins are taken until what they bring beyond `extra` each has covered `deficit`. */
  function AddPlan(wallet: Wallet, utxos: seq<OutPoint>, barred: set<OutPoint>, deficit: nat, extra: nat): Plan
    decreases |utxos|
  {
    if deficit == 0 then Coins([])
    else if deficit + extra > U64_MAX then TooLarge
    else
      var pick := Pick(wallet, utxos, barred, deficit + extra, false);
      if pick.None? || Amount(wallet, pick.value) < extra then Short
      else
        WithoutShorter(utxos, pick.value);
        var benefit := Amount(wallet, pick.value) - extra;
        Then(pick.value,
          AddPlan(
            wallet, Without(utxos, pick.value), barred, if benefit > deficit then 0 else deficit - benefit, extra))
  }

  /** Coins that may be spent: distinct ones from `utxos`, none of them barred. */
  predicate Takeable(coins: seq<OutPoint>, utxos: seq<OutPoint>, barred: set<OutPoint>) {
    Distinct(coins) && forall x <- coins :: x in utxos && x !in barred
  }

  lemma TakeOneMore(coin: OutPoint, rest: seq<OutPoint>, utxos: seq<OutPoint>, barred: set<OutPoint>)
    requires Distinct(utxos) && coin in utxos && coin !in barred
    requires Takeable(rest, Without(utxos, coin), barred)
    ensures Takeable([coin] + rest, utxos, barred)
  {
    WithoutKeeps(utxos, coin);
    assert ([coin] + rest)[1..] == rest;
  }

  lemma InputTotalOfLast(wallet: Wallet, coin: OutPoint, rest: seq<OutPoint>)
    ensures InputTotal(wallet, [coin] + rest) == Amount(wallet, coin) + InputTotal(wallet, rest)
    ensures rest != [] ==>
      InputTotal(wallet, ([coin] + rest)[..|rest|]) == Amount(wallet, coin) + InputTotal(wallet, rest[..|rest| - 1])
  {
    assert ([coin] + rest)[1..] == rest;
    if rest != [] {
      assert ([coin] + rest)[..|rest|] == [coin] + rest[..|rest| - 1];
      assert ([coin] + rest)[..|rest|][1..] == rest[..|rest| - 1];
    }
  }

  /** The plan, unless it runs short, takes coins that may be spent. */
  predicate TakesOnly(plan: Plan, utxos: seq<OutPoint>, barred: set<OutPoint>) {
    plan.Coins? ==> Takeable(plan.coins, utxos, barred)
  }

  lemma {:induction false} PadPlanTakeable(
    wallet: Wallet, utxos: seq<OutPoint>, barred: set<OutPoint>, value: nat, goal: nat)
    requires Distinct(utxos)
    ensures TakesOnly(PadPlan(wallet, utxos, barred, value, goal), utxos, barred)
    decreases |utxos|
  {
    if value < goal {
      var pick := Pick(wallet, utxos, barred, goal - value, true);
      if pick.None? {
        PadNoMore(wallet, utxos, barred, value, goal);
      } else {
        WithoutKeeps(utxos, pick.value);
        PadPlanTakeable(wallet, Without(utxos, pick.value), barred, value + Amount(wallet, pick.value), goal);
        PadTakesOneMore(wallet, utxos, barred, value, goal, pick.value);
      }
    }
  }

  lemma PadTakesOneMore(
    wallet: Wallet, utxos: seq<OutPoint>, barred: set<OutPoint>, value: nat, goal: nat, coin: OutPoint)
    requires Distinct(utxos) && value < goal && Pick(wallet, utxos, barred, goal - value, true) == Some(coin)
    requires var next, more := Without(utxos, coin), value + Amount(wallet, coin);
      TakesOnly(PadPlan(wallet, next, barred, more, goal), next, barred)
    ensures TakesOnly(PadPlan(wallet, utxos, barred, value, goal), utxos, barred)
  {
    PadPlanOpens(wallet, utxos, barred, value, goal, coin);
    var rest := PadPlan(wallet, Without(utxos, coin), barred, value + Amount(wallet, coin), goal);
    if rest.Coins? {
      TakeOneMore(coin, rest.coins, utxos, barred);
    }
  }

  /** Each of the coins is still needed, and no more are. */
  predicate JustEnough(wallet: Wallet, coins: seq<OutPoint>, value: nat, goal: nat) {
    if coins == [] then value >= goal
    else value < goal && JustEnough(wallet, coins[1..], value + Amount(wallet, coins[0]), goal)
  }

  lemma {:induction false} PadPlanTakesEnough(
    wallet: Wallet, utxos: seq<OutPoint>, barred: set<OutPoint>, value: nat, goal: nat)
    ensures TakesEnough(wallet, PadPlan(wallet, utxos, barred, value, goal), value, goal)
    decreases |utxos|
  {
    if value < goal {
      var pick := Pick(wallet, utxos, barred, goal - value, true);
      if pick.None? {
        PadNoMore(wallet, utxos, barred, value, goal);
      } else {
        WithoutShorter(utxos, pick.value);
        PadPlanTakesEnough(wallet, Without(utxos, pick.value), barred, value + Amount(wallet, pick.value), goal);
        OneMoreIsEnough(wallet, utxos, barred, value, goal, pick.value);
      }
    }
  }

  /** The plan, unless it runs short, takes just enough. */
  predicate TakesEnough(wallet: Wallet, plan: Plan, value: nat, goal: nat) {
    plan.Coins? ==> JustEnough(wallet, plan.coins, value, goal)
  }

  lemma OneMoreIsEnough(
    wallet: Wallet, utxos: seq<OutPoint>, barred: set<OutPoint>, value: nat, goal: nat, coin: OutPoint)
    requires value < goal && Pick(wallet, utxos, barred, goal - value, true) == Some(coin)
    requires var next, more := Without(utxos, coin), value + Amount(wallet, coin);
      TakesEnough(wallet, PadPlan(wallet, next, barred, more, goal), more, goal)
    ensures TakesEnough(wallet, PadPlan(wallet, utxos, barred, value, goal), value, goal)
  {
    PadPlanOpens(wallet, utxos, barred, value, goal, coin);
    var rest := PadPlan(wallet, Without(utxos, coin), barred, value + Amount(wallet, coin), goal);
    if rest.Coins? {
      assert ([coin] + rest.coins)[1..] == rest.coins;
    }
  }

  lemma {:induction false} EnoughReaches(wallet: Wallet, coins: seq<OutPoint>, value: nat, goal: nat)
    requires JustEnough(wallet, coins, value, goal)
    ensures value + InputTotal(wallet, coins) >= goal
    ensures coins != [] ==> value + InputTotal(wallet, coins[..|coins| - 1]) < goal
  {
    if coins != [] {
      EnoughReaches(wallet, coins[1..], value + Amount(wallet, coins[0]), goal);
      InputTotalOfLast(wallet, coins[0], coins[1..]);
      assert [coins[0]] + coins[1..] == coins;
    }
  }

  /** Padding reaches the goal, and would not without its last coin. */
  lemma PadPlanReaches(wallet: Wallet, utxos: seq<OutPoint>, barred: set<OutPoint>, value: nat, goal: nat)
    requires PadPlan(wallet, utxos, barred, value, goal).Coins?
    ensures var coins := PadPlan(wallet, utxos, barred, value, goal).coins;
      && value + InputTotal(wallet, coins) >= goal
      && (coins != [] ==> value + InputTotal(wallet, coins[..|coins| - 1]) < goal)
  {
    PadPlanTakesEnough(wallet, utxos, barred, value, goal);
    EnoughReaches(wallet, PadPlan(wallet, utxos, barred, value, goal).coins, value, goal);
  }

  lemma {:induction false} AddPlanTakeable(
    wallet: Wallet, utxos: seq<OutPoint>, barred: set<OutPoint>, deficit: nat, extra: nat)
    requires Distinct(utxos)
    requires AddPlan(wallet, utxos, barred, deficit, extra).Coins?
    ensures Takeable(AddPlan(wallet, utxos, barred, deficit, extra).coins, utxos, barred)
    decreases |utxos|
  {
    if deficit > 0 {
      var coin := Pick(wallet, utxos, barred, deficit + extra, false).value;
      var benefit := Amount(wallet, coin) - extra;
      var less := if benefit > deficit then 0 else deficit - benefit;
      WithoutKeeps(utxos, coin);
      AddPlanTakeable(wallet, Without(utxos, coin), barred, less, extra);
      TakeOneMore(coin, AddPlan(wallet, Without(utxos, coin), barred, less, extra).coins, utxos, barred);
    }
  }

  /** Adding value covers the deficit and `extra` for every coin added. */
  lemma {:induction false} AddPlanCovers(
    wallet: Wallet, utxos: seq<OutPoint>, barred: set<OutPoint>, deficit: nat, extra: nat)
    requires AddPlan(wallet, utxos, barred, deficit, extra).Coins?
    ensures var coins := AddPlan(wallet, utxos, barred, deficit, extra).coins;
      InputTotal(wallet, coins) >= deficit + extra * |coins|
    decreases |utxos|
  {
    if deficit > 0 {
      var coin := Pick(wallet, utxos, barred, deficit + extra, false).value;
      var benefit := Amount(wallet, coin) - extra;
      var less := if benefit > deficit then 0 else deficit - benefit;
      WithoutShorter(utxos, coin);
      AddPlanCovers(wallet, Without(utxos, coin), barred, less, extra);
      var rest := AddPlan(wallet, Without(utxos, coin), barred, less, extra).coins;
      InputTotalOfLast(wallet, coin, rest);
      OneMoreTimes(extra, |rest|);
    }
  }

  // ----- when coins run out -----

  /** What a coin brings beyond `extra`. */
  function Gain(wallet: Wallet, coin: OutPoint, extra: nat): nat {
    if Amount(wallet, coin) < extra then 0 else Amount(wallet, coin) - extra
  }

  /** What all candidates in the list bring together. */
  function Gains(wallet: Wallet, utxos: seq<OutPoint>, candidates: set<OutPoint>, extra: nat): nat {
    if utxos == [] then 0
    else
      (if utxos[0] in candidates then Gain(wallet, utxos[0], extra) else 0)
        + Gains(wallet, utxos[1..], candidates, extra)
  }

  lemma {:induction false} GainsWithout(
    wallet: Wallet, utxos: seq<OutPoint>, candidates: set<OutPoint>, extra: nat, coin: OutPoint)
    requires coin in utxos && coin in candidates
    ensures Gains(wallet, utxos, candidates, extra)
         == Gain(wallet, coin, extra) + Gains(wallet, Without(utxos, coin), candidates, extra)
  {
    if utxos[0] != coin {
      GainsWithout(wallet, utxos[1..], candidates, extra, coin);
      assert ([utxos[0]] + Without(utxos[1..], coin))[1..] == Without(utxos[1..], coin);
    }
  }

  lemma {:induction false} NoGains(wallet: Wallet, utxos: seq<OutPoint>, candidates: set<OutPoint>, extra: nat)
    requires forall x <- utxos :: x in candidates ==> Amount(wallet, x) <= extra
    ensures Gains(wallet, utxos, candidates, extra) == 0
  {
    if utxos != [] {
      NoGains(wallet, utxos[1..], candidates, extra);
    }
  }

  /** What the pick says of all the others. */
  lemma PickAmong(
    wallet: Wallet, utxos: seq<OutPoint>, barred: set<OutPoint>, target: nat, under: bool, candidates: set<OutPoint>)
    requires forall x <- utxos :: x in candidates <==> x !in barred
    ensures var pick := Pick(wallet, utxos, barred, target, under);
      && (pick.None? ==> forall x <- utxos :: x !in candidates)
      && (pick.Some? ==> pick.value in utxos && pick.value in candidates)
      && (pick.Some? && !under && Amount(wallet, pick.value) < target ==>
        forall x <- utxos :: x in candidates ==> Amount(wallet, x) <= Amount(wallet, pick.value))
  {
    PickByWorth(wallet, utxos, barred, target, under, set x | x in utxos && x in candidates);
  }

  /** The plan succeeds if the coins suffice, and else runs short. */
  ghost predicate ShortExactly(plan: Plan, available: nat, goal: nat) {
    if available >= goal then plan.Coins? else plan == Short
  }

  /** Padding runs out of coins exactly when all candidates together do not reach the goal. */
  lemma {:induction false} PadPlanExactly(
    wallet: Wallet, utxos: seq<OutPoint>, barred: set<OutPoint>, value: nat, goal: nat, candidates: set<OutPoint>)
    requires Distinct(utxos) && forall x <- utxos :: x in candidates <==> x !in barred
    ensures ShortExactly(
      PadPlan(wallet, utxos, barred, value, goal), value + Gains(wallet, utxos, candidates, 0), goal)
    decreases |utxos|
  {
    if value < goal {
      PickAmong(wallet, utxos, barred, goal - value, true, candidates);
      var pick := Pick(wallet, utxos, barred, goal - value, true);
      if pick.None? {
        NoGains(wallet, utxos, candidates, 0);
        PadNoMore(wallet, utxos, barred, value, goal);
      } else {
        var next, more := Without(utxos, pick.value), value + Amount(wallet, pick.value);
        WithoutKeeps(utxos, pick.value);
        PadPlanExactly(wallet, next, barred, more, goal, candidates);
        PadOneMore(wallet, utxos, barred, value, goal, candidates, pick.value);
      }
    }
  }

  lemma PadNoMore(wallet: Wallet, utxos: seq<OutPoint>, barred: set<OutPoint>, value: nat, goal: nat)
    requires value < goal && Pick(wallet, utxos, barred, goal - value, true).None?
    ensures PadPlan(wallet, utxos, barred, value, goal) == Short
  {
  }

  lemma PadOneMore(
    wallet: Wallet, utxos: seq<OutPoint>, barred: set<OutPoint>, value: nat, goal: nat, candidates: set<OutPoint>,
    coin: OutPoint)
    requires value < goal && Pick(wallet, utxos, barred, goal - value, true) == Some(coin)
    requires coin in utxos && coin in candidates
    requires var next, more := Without(utxos, coin), value + Amount(wallet, coin);
      ShortExactly(PadPlan(wallet, next, barred, more, goal), more + Gains(wallet, next, candidates, 0), goal)
    ensures ShortExactly(
      PadPlan(wallet, utxos, barred, value, goal), value + Gains(wallet, utxos, candidates, 0), goal)
  {
    GainsWithout(wallet, utxos, candidates, 0, coin);
    PadPlanOpens(wallet, utxos, barred, value, goal, coin);
  }

  /** Adding value runs out of coins exactly when all candidates together do not bring the deficit beyond `extra`
      each; those that are worth less than that do not count. */
  lemma {:induction false} AddPlanExactly(
    wallet: Wallet, utxos: seq<OutPoint>, barred: set<OutPoint>, deficit: nat, extra: nat, candidates: set<OutPoint>)
    requires Distinct(utxos) && forall x <- utxos :: x in candidates <==> x !in barred
    ensures var plan := AddPlan(wallet, utxos, barred, deficit, extra);
      if deficit > 0 && deficit + extra > U64_MAX then plan == TooLarge
      else ShortExactly(plan, Gains(wallet, utxos, candidates, extra), deficit)
    decreases |utxos|
  {
    if 0 < deficit && deficit + extra <= U64_MAX {
      PickAmong(wallet, utxos, barred, deficit + extra, false, candidates);
      var pick := Pick(wallet, utxos, barred, deficit + extra, false);
      if pick.None? || Amount(wallet, pick.value) < extra {
        NoGains(wallet, utxos, candidates, extra);
      } else {
        var benefit := Amount(wallet, pick.value) - extra;
        var less := if benefit > deficit then 0 else deficit - benefit;
        WithoutKeeps(utxos, pick.value);
        GainsWithout(wallet, utxos, candidates, extra, pick.value);
        AddPlanOpens(wallet, utxos, barred, deficit, extra, pick.value, less);
        AddPlanExactly(wallet, Without(utxos, pick.value), barred, less, extra, candidates);
      }
    }
  }

  lemma AddPlanOpens(
    wallet: Wallet, utxos: seq<OutPoint>, barred: set<OutPoint>, deficit: nat, extra: nat, coin: OutPoint, less: nat)
    requires 0 < deficit && deficit + extra <= U64_MAX
    requires Pick(wallet, utxos, barred, deficit + extra, false) == Some(coin) && extra <= Amount(wallet, coin)
    requires less == if Amount(wallet, coin) - extra > deficit then 0 else deficit - (Amount(wallet, coin) - extra)
    ensures AddPlan(wallet, utxos, barred, deficit, extra)
         == Then(coin, AddPlan(wallet, Without(utxos, coin), barred, less, extra))
  {
  }

  lemma OneMoreTimes(a: nat, b: nat)
    ensures a * (b + 1) == a * b + a
  {
  }

  lemma {:induction false} WithoutAllKeeps(utxos: seq<OutPoint>, coins: seq<OutPoint>, barred: set<OutPoint>)
    requires Distinct(utxos) && Takeable(coins, utxos, barred)
    ensures Distinct(WithoutAll(utxos, coins))
    ensures forall y :: y in WithoutAll(utxos, coins) <==> y in utxos && y !in coins
    decreases |coins|
  {
    if coins != [] {
      WithoutKeeps(utxos, coins[0]);
      WithoutAllKeeps(Without(utxos, coins[0]), coins[1..], barred);
    }
  }

  lemma {:induction false} ReversedKeeps(wallet: Wallet, s: seq<OutPoint>)
    ensures |Reversed(s)| == |s|
    ensures forall y :: y in Reversed(s) <==> y in s
    ensures Distinct(s) ==> Distinct(Reversed(s))
    ensures InputTotal(wallet, Reversed(s)) == InputTotal(wallet, s)
  {
    if s != [] {
      ReversedKeeps(wallet, s[1..]);
      InputTotalConcat(wallet, Reversed(s[1..]), [s[0]]);
      if Distinct(s) {
        DistinctConcat(Reversed(s[1..]), [s[0]]);
      }
    }
  }

  lemma {:induction false} DistinctConcat(a: seq<OutPoint>, b: seq<OutPoint>)
    requires Distinct(a) && Distinct(b) && forall x <- a :: x !in b
    ensures Distinct(a + b)
  {
    if a == [] {
      assert a + b == b;
    } else {
      assert (a + b)[1..] == a[1..] + b;
      DistinctConcat(a[1..], b);
    }
  }

  lemma {:induction false} SatOffsetAfter(
    wallet: Wallet, front: seq<OutPoint>, inputs: seq<OutPoint>, outgoing: SatPoint)
    requires outgoing.outpoint in inputs && outgoing.outpoint !in front
    ensures SatOffset(wallet, front + inputs, outgoing)
         == InputTotal(wallet, front) + SatOffset(wallet, inputs, outgoing)
  {
    if front == [] {
      assert front + inputs == inputs;
    } else {
      assert (front + inputs)[1..] == front[1..] + inputs;
      SatOffsetAfter(wallet, front[1..], inputs, outgoing);
    }
  }

  lemma {:induction false} SatOffsetBefore(
    wallet: Wallet, inputs: seq<OutPoint>, back: seq<OutPoint>, outgoing: SatPoint)
    requires outgoing.outpoint in inputs
    ensures SatOffset(wallet, inputs + back, outgoing) == SatOffset(wallet, inputs, outgoing)
  {
    if inputs[0] != outgoing.outpoint {
      assert (inputs + back)[1..] == inputs[1..] + back;
      SatOffsetBefore(wallet, inputs[1..], back, outgoing);
    }
  }

  function Prepend(coins: seq<OutPoint>, plan: Plan): Plan {
    if plan.Coins? then Coins(coins + plan.coins) else plan
  }

  lemma PrependThen(coins: seq<OutPoint>, coin: OutPoint, plan: Plan)
    ensures Prepend(coins, Then(coin, plan)) == Prepend(coins + [coin], plan)
  {
    if plan.Coins? {
      assert coins + ([coin] + plan.coins) == coins + [coin] + plan.coins;
    }
  }

  lemma {:induction false} ReversedSnoc(coins: seq<OutPoint>, coin: OutPoint)
    ensures Reversed(coins + [coin]) == [coin] + Reversed(coins)
  {
    if coins == [] {
      assert coins + [coin] == [coin];
    } else {
      assert (coins + [coin])[1..] == coins[1..] + [coin];
      ReversedSnoc(coins[1..], coin);
    }
  }

  lemma {:induction false} WithoutAllSnoc(utxos: seq<OutPoint>, coins: seq<OutPoint>, coin: OutPoint)
    ensures WithoutAll(utxos, coins + [coin]) == Without(WithoutAll(utxos, coins), coin)
    decreases |coins|
  {
    if coins == [] {
      assert coins + [coin] == [coin];
    } else {
      assert (coins + [coin])[1..] == coins[1..] + [coin];
      WithoutAllSnoc(Without(utxos, coins[0]), coins[1..], coin);
    }
  }

  lemma InputTotalSnoc(wallet: Wallet, coins: seq<OutPoint>, coin: OutPoint)
    ensures InputTotal(wallet, coins + [coin]) == InputTotal(wallet, coins) + Amount(wallet, coin)
  {
    InputTotalConcat(wallet, coins, [coin]);
  }

  lemma PadPlanOpens(
    wallet: Wallet, utxos: seq<OutPoint>, barred: set<OutPoint>, value: nat, goal: nat, coin: OutPoint)
    requires value < goal && Pick(wallet, utxos, barred, goal - value, true) == Some(coin)
    ensures PadPlan(wallet, utxos, barred, value, goal)
         == Then(coin, PadPlan(wallet, Without(utxos, coin), barred, value + Amount(wallet, coin), goal))
  {
  }

  lemma AddPlanStep(
    wallet: Wallet, utxos: seq<OutPoint>, barred: set<OutPoint>, deficit: nat, extra: nat, coin: OutPoint,
    less: nat, coins: seq<OutPoint>, whole: Plan)
    requires 0 < deficit && deficit + extra <= U64_MAX
    requires Pick(wallet, utxos, barred, deficit + extra, false) == Some(coin) && extra <= Amount(wallet, coin)
    requires less == if Amount(wallet, coin) - extra > deficit then 0 else deficit - (Amount(wallet, coin) - extra)
    requires whole == Prepend(coins, AddPlan(wallet, utxos, barred, deficit, extra))
    ensures whole == Prepend(coins + [coin], AddPlan(wallet, Without(utxos, coin), barred, less, extra))
  {
    WithoutShorter(utxos, coin);
    PrependThen(coins, coin, AddPlan(wallet, Without(utxos, coin), barred, less, extra));
  }
}
