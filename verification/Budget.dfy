/** The fixed request budget: a deduction is one Lua script, and Lua computes in doubles. */
module Budget {

  type Id = string

  datatype Option<+T> = None | Some(value: T)

  /** Integers up to here are exact in a double. */
  const EXACT := 0x20_0000_0000_0000

  /** Nearest multiple of `unit`, ties to the even multiple. */
  function RoundTo(n: nat, unit: nat): nat
    requires unit >= 1
  {
    var down := n / unit;
    var rest := n % unit;
    if 2 * rest < unit || (2 * rest == unit && down % 2 == 0) then down * unit else (down + 1) * unit
  }

  /** tonumber: the double nearest to `n`, which carries 53 significant bits. */
  function Double(n: nat): nat {
    RoundAt(n, 1)
  }

  function RoundAt(n: nat, unit: nat): nat
    requires unit >= 1
    decreases if unit > n then 0 else n - unit
  {
    if n <= EXACT * unit then RoundTo(n, unit) else RoundAt(n, 2 * unit)
  }

  lemma DoubleIsExact(n: nat)
    requires n <= EXACT
    ensures Double(n) == n
  {
  }

  lemma MulMono(a: nat, b: nat, unit: nat)
    requires a <= b
    ensures a * unit <= b * unit
  {
  }

  lemma DivAtLeast(n: nat, unit: nat, h: nat)
    requires unit >= 1 && n >= h * unit
    ensures n / unit >= h
  {
    var q := n / unit;
    assert n == q * unit + n % unit && n % unit < unit;
    assert (q + 1) * unit == q * unit + unit;
    if q < h {
      MulMono(q + 1, h, unit);
    }
  }

  lemma RoundAtDoubles(n: nat, unit: nat)
    requires unit >= 1 && n > EXACT * unit
    ensures RoundAt(n, unit) == RoundAt(n, 2 * unit)
  {
  }

  lemma {:induction false} RoundAtStaysAbove(n: nat, unit: nat)
    requires unit >= 4 && unit % 2 == 0 && n > EXACT * (unit / 2)
    ensures RoundAt(n, unit) > EXACT
    decreases if unit > n then 0 else n - unit
  {
    if n > EXACT * unit {
      RoundAtStaysAbove(n, 2 * unit);
    } else {
      DivAtLeast(n, unit, EXACT / 2);
      var q := n / unit;
      MulMono(4, unit, q);
      assert q * unit >= 4 * q && (q + 1) * unit >= q * unit;
    }
  }

  lemma FirstInexact()
    ensures Double(EXACT + 1) == EXACT
  {
    assert RoundTo(EXACT + 1, 2) == EXACT;
    assert RoundAt(EXACT + 1, 1) == RoundAt(EXACT + 1, 2);
  }

  /** No larger integer reads below the exact range, and only 2^53 + 1 rounds down to its end. */
  lemma DoubleStaysAbove(n: nat)
    requires n >= EXACT
    ensures Double(n) >= EXACT
    ensures Double(n) == EXACT <==> n == EXACT || n == EXACT + 1
  {
    if n == EXACT {
      DoubleIsExact(n);
    } else if n == EXACT + 1 {
      FirstInexact();
    } else if n <= 2 * EXACT {
      assert RoundAt(n, 1) == RoundAt(n, 2) == RoundTo(n, 2) && n / 2 > EXACT / 2;
    } else {
      RoundAtDoubles(n, 1);
      RoundAtDoubles(n, 2);
      RoundAtStaysAbove(n, 4);
    }
  }

  /** Beyond 2^53 only even integers are doubles. */
  lemma DoubleIsEven(n: nat)
    requires n > EXACT
    ensures Double(n) % 2 == 0
  {
    RoundAtDoubles(n, 1);
    RoundAtIsEven(n, 1);
  }

  /** Every unit the rounding tries beyond the first is twice another. */
  lemma {:induction false} RoundAtIsEven(n: nat, half: nat)
    requires half >= 1
    ensures RoundAt(n, 2 * half) % 2 == 0
    decreases if half > n then 0 else n - half
  {
    if n > EXACT * (2 * half) {
      RoundAtDoubles(n, 2 * half);
      RoundAtIsEven(n, 2 * half);
    } else {
      RoundToIsEven(n, half);
    }
  }

  lemma RoundToIsEven(n: nat, half: nat)
    requires half >= 1
    ensures RoundTo(n, 2 * half) % 2 == 0
  {
    var unit := 2 * half;
    var down := n / unit;
    assert down * unit == 2 * (down * half) && (down + 1) * unit == 2 * ((down + 1) * half);
  }

  // ---- the script ----

  type Budgets = map<Id, nat>

  /** deductBudgetScript: the new table and the reply, -1 for refused. */
  function Deduct(budgets: Budgets, key: Id, cost: nat): (Budgets, int) {
    if key !in budgets then (budgets, -1)
    else if Double(budgets[key]) >= Double(cost) then
      var remaining := Double(Double(budgets[key]) - Double(cost));
      (budgets[key := remaining], remaining)
    else (budgets, -1)
  }

  datatype Answer = Allowed(remaining: nat) | Refused | InvalidAmount | InvalidKey

  class RateLimiter {
    var budgets: Budgets

    constructor ()
      ensures budgets == map[]
    {
      budgets := map[];
    }

    /** `key` is the trimmed key; empty ones are invalid. */
    method SetBudget(key: Id, amount: int) returns (ok: bool)
      modifies this
      ensures ok <==> amount >= 0 && key != ""
      ensures budgets == if ok then old(budgets)[key := amount] else old(budgets)
    {
      if amount < 0 || key == "" {
        return false;
      }
      budgets := budgets[key := amount];
      return true;
    }

    method AllowAtomic(key: Id, cost: int) returns (answer: Answer)
      modifies this
      ensures answer == InvalidAmount <==> cost < 0
      ensures answer == InvalidKey <==> cost >= 0 && key == ""
      ensures cost >= 0 && key != "" ==>
                var (next, reply) := Deduct(old(budgets), key, cost);
                budgets == next && answer == if reply == -1 then Refused else Allowed(reply)
      ensures answer == InvalidAmount || answer == InvalidKey || answer == Refused ==> budgets == old(budgets)
      ensures cost >= 0 && key != "" && key !in old(budgets) ==> answer == Refused
      ensures cost >= 0 && key != "" && key in old(budgets) ==>
                (answer == Refused <==> Double(old(budgets)[key]) < Double(cost))
      ensures budgets - {key} == old(budgets) - {key}
    {
      if cost < 0 {
        return InvalidAmount;
      }
      if key == "" {
        return InvalidKey;
      }
      if key !in budgets {
        return Refused;
      }
      var current, price := Double(budgets[key]), Double(cost);
      if current >= price {
        var remaining := Double(current - price);
        budgets := budgets[key := remaining];
        return Allowed(remaining);
      }
      return Refused;
    }

    /** Allow is AllowAtomic without the remaining amount. */
    method Allow(key: Id, cost: int) returns (allowed: bool)
      modifies this
      ensures allowed <==> cost >= 0 && key != "" && Deduct(old(budgets), key, cost).1 != -1
      ensures budgets == if cost >= 0 && key != "" then Deduct(old(budgets), key, cost).0 else old(budgets)
      ensures key !in old(budgets) ==> !allowed && budgets == old(budgets)
    {
      var answer := AllowAtomic(key, cost);
      return answer.Allowed?;
    }
  }

  // ---- any history of deductions from one budget ----

  function After(budgets: Budgets, key: Id, costs: seq<nat>): Budgets
    decreases |costs|
  {
    if costs == [] then budgets
    else Deduct(After(budgets, key, costs[..|costs| - 1]), key, costs[|costs| - 1]).0
  }

  /** The sum of the costs that were allowed, as the callers count them. */
  function Spent(budgets: Budgets, key: Id, costs: seq<nat>): nat
    decreases |costs|
  {
    if costs == [] then 0
    else
      var before := costs[..|costs| - 1];
      var cost := costs[|costs| - 1];
      Spent(budgets, key, before) + if Deduct(After(budgets, key, before), key, cost).1 != -1 then cost else 0
  }

  function AllowedCount(budgets: Budgets, key: Id, costs: seq<nat>): nat
    decreases |costs|
  {
    if costs == [] then 0
    else
      var before := costs[..|costs| - 1];
      AllowedCount(budgets, key, before)
      + if Deduct(After(budgets, key, before), key, costs[|costs| - 1]).1 != -1 then 1 else 0
  }

  /** Of the budgets up to 2^53, one deduction is plain arithmetic whatever the cost, but for the
      cost 2^53 + 1 against the budget 2^53. */
  lemma DeductIsExact(budgets: Budgets, key: Id, cost: nat)
    requires key in budgets && budgets[key] <= EXACT
    ensures (budgets[key] < EXACT || cost != EXACT + 1) <==>
            Deduct(budgets, key, cost) ==
            if budgets[key] < cost then (budgets, -1)
            else (budgets[key := budgets[key] - cost], budgets[key] - cost)
  {
    DoubleIsExact(budgets[key]);
    if cost <= EXACT {
      DoubleIsExact(cost);
      if budgets[key] >= cost { DoubleIsExact(budgets[key] - cost); }
    } else {
      DoubleStaysAbove(cost);
    }
  }

  /** Allowed costs and the remainder always add up to the budget that was set, and the remainder
      is never negative, so -1 only ever means refused. */
  lemma {:induction false} BudgetConserved(budgets: Budgets, key: Id, costs: seq<nat>)
    requires key in budgets
    requires budgets[key] < EXACT || (budgets[key] == EXACT && forall i :: 0 <= i < |costs| ==> costs[i] != EXACT + 1)
    ensures key in After(budgets, key, costs)
    ensures Spent(budgets, key, costs) + After(budgets, key, costs)[key] == budgets[key]
    decreases |costs|
  {
    if costs != [] {
      var before := costs[..|costs| - 1];
      BudgetConserved(budgets, key, before);
      DeductIsExact(After(budgets, key, before), key, costs[|costs| - 1]);
    }
  }

  /** Exactly the budgets below 2^53 are conserved by every history of costs. */
  lemma ConservedExactlyBelow(budgets: Budgets, key: Id)
    requires key in budgets
    ensures budgets[key] < EXACT <==> forall costs :: Conserves(budgets, key, costs)
  {
    if budgets[key] < EXACT {
      forall costs ensures Conserves(budgets, key, costs) { BudgetConserved(budgets, key, costs); }
    } else if budgets[key] == EXACT {
      Overspend(budgets, key);
      assert !Conserves(budgets, key, [EXACT + 1]);
    } else {
      LargeIsLost(budgets, key);
      assert !Conserves(budgets, key, [1 - budgets[key] % 2]);
    }
  }

  ghost predicate Conserves(budgets: Budgets, key: Id, costs: seq<nat>)
    requires key in budgets
  {
    key in After(budgets, key, costs) && Spent(budgets, key, costs) + After(budgets, key, costs)[key] == budgets[key]
  }

  /** A cost of 0 or 1, whichever would leave an odd budget beyond 2^53, loses or makes up a unit. */
  lemma LargeIsLost(budgets: Budgets, key: Id)
    requires key in budgets && budgets[key] > EXACT
    ensures !Conserves(budgets, key, [1 - budgets[key] % 2])
  {
    var budget := budgets[key];
    var cost: nat := 1 - budget % 2;
    var costs: seq<nat> := [cost];
    assert costs[..|costs| - 1] == [] && costs[|costs| - 1] == cost;
    assert After(budgets, key, []) == budgets && Spent(budgets, key, []) == 0;
    DoubleIsExact(cost);
    DoubleIsEven(budget);
    DoubleStaysAbove(budget);
    var left: nat := Double(budget) - cost;
    if left > EXACT { DoubleIsEven(left); } else { DoubleIsExact(left); }
  }

  /** One cost of 2^53 + 1 is allowed against a budget of 2^53. */
  lemma Overspend(budgets: Budgets, key: Id)
    requires key in budgets && budgets[key] == EXACT
    ensures Spent(budgets, key, [EXACT + 1]) == EXACT + 1
    ensures key in After(budgets, key, [EXACT + 1]) && After(budgets, key, [EXACT + 1])[key] == 0
  {
    FirstInexact();
    DoubleIsExact(EXACT);
    DoubleIsExact(0);
    var costs: seq<nat> := [EXACT + 1];
    assert costs[..|costs| - 1] == [];
    assert After(budgets, key, []) == budgets && Spent(budgets, key, []) == 0;
  }

  function Equal(cost: nat, n: nat): seq<nat> {
    seq(n, _ => cost)
  }

  /** `n` calls of one cost are allowed exactly as often as the budget divides, and no more often
      than they are made. */
  lemma {:induction false} EqualCalls(budgets: Budgets, key: Id, cost: nat, n: nat)
    requires key in budgets && budgets[key] <= EXACT && cost > 0
    requires budgets[key] == EXACT ==> cost != EXACT + 1
    ensures var share := budgets[key] / cost;
            AllowedCount(budgets, key, Equal(cost, n)) == if n <= share then n else share
    ensures key in After(budgets, key, Equal(cost, n))
    ensures After(budgets, key, Equal(cost, n))[key] == budgets[key] - cost * AllowedCount(budgets, key, Equal(cost, n))
    decreases n
  {
    if n > 0 {
      EqualCalls(budgets, key, cost, n - 1);
      var costs := Equal(cost, n);
      assert costs[..|costs| - 1] == Equal(cost, n - 1) && costs[|costs| - 1] == cost;
      var before := After(budgets, key, Equal(cost, n - 1));
      var made := AllowedCount(budgets, key, Equal(cost, n - 1));
      assert before[key] <= budgets[key] by { MulMono(0, made, cost); }
      DeductIsExact(before, key, cost);
      Affordable(budgets[key], cost, made);
    }
  }

  lemma Affordable(budget: nat, cost: nat, made: nat)
    requires cost > 0 && made <= budget / cost
    ensures budget - cost * made >= cost <==> made < budget / cost
    ensures cost * (made + 1) == cost * made + cost
  {
    var share := budget / cost;
    assert budget == cost * share + budget % cost;
    if made < share {
      MulMono(made + 1, share, cost);
    }
  }

  /** Of the budgets up to 2^53 and the costs, exactly the budget 2^53 with the cost 2^53 + 1 is
      miscounted: one call is allowed that the budget cannot pay. */
  lemma EqualCallsExactly(budgets: Budgets, key: Id, cost: nat)
    requires key in budgets && budgets[key] <= EXACT && cost > 0
    ensures (budgets[key] < EXACT || cost != EXACT + 1) <==>
            forall n: nat :: AllowedCount(budgets, key, Equal(cost, n))
                             == if n <= budgets[key] / cost then n else budgets[key] / cost
  {
    if budgets[key] < EXACT || cost != EXACT + 1 {
      forall n: nat
        ensures AllowedCount(budgets, key, Equal(cost, n))
             == if n <= budgets[key] / cost then n else budgets[key] / cost
      {
        EqualCalls(budgets, key, cost, n);
      }
    } else {
      OneTooMany(budgets, key);
    }
  }

  lemma OneTooMany(budgets: Budgets, key: Id)
    requires key in budgets && budgets[key] == EXACT
    ensures AllowedCount(budgets, key, Equal(EXACT + 1, 1)) == 1 && EXACT / (EXACT + 1) == 0
  {
    FirstInexact();
    DoubleIsExact(EXACT);
    DoubleIsExact(0);
    var costs := Equal(EXACT + 1, 1);
    assert costs[..|costs| - 1] == [];
    assert After(budgets, key, []) == budgets && AllowedCount(budgets, key, []) == 0;
  }
}
