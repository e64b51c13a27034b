/** One cost threshold shared by every call of a run. */
module Budget {
  import opened Sequences

  /** A value as it arrives in a usage record. `Text` that reads as a number is a `Number`. */
  datatype Value = Number(r: real) | NotFinite | Bool(b: bool) | NotNumeric

  /** A usage record: absent, or the fields that matter. Each token field is its primary name if present,
      else its alias. */
  datatype Usage =
    | Missing
    | Usage(incomplete: bool, input: Option<Value>, output: Option<Value>, cost: Option<Value>)

  /** A model's price per million prompt and completion tokens. */
  datatype Pricing = Unknown | Known(prompt: real, completion: real)

  datatype Totals = Totals(input: nat, output: nat, cost: real)

  function Tokens(value: Option<Value>, hasCost: bool): Option<nat>
  {
    match value
    case None => if hasCost then Some(0) else None
    case Some(Number(r)) => if r >= 0.0 && r.Floor as real == r then Some(r.Floor) else None
    case Some(_) => None
  }

  /** The tokens and cost of one request, or nothing when its record cannot be trusted. */
  function UsageTotals(pricing: Pricing, usage: Usage): (t: Option<Totals>)
    ensures t.Some? ==> t.value.cost >= 0.0
  {
    if usage.Missing? || usage.incomplete then None
    else
      var input, output := Tokens(usage.input, usage.cost.Some?), Tokens(usage.output, usage.cost.Some?);
      if input.None? || output.None? then None
      else
        match usage.cost
        case Some(Number(r)) => if r >= 0.0 then Some(Totals(input.value, output.value, r)) else None
        case Some(_) => None
        case None =>
          if pricing.Unknown? then None
          else
            var cost := (input.value as real * pricing.prompt + output.value as real * pricing.completion) / 1000000.0;
            if cost >= 0.0 then Some(Totals(input.value, output.value, cost)) else None
  }

  predicate IsCount(n: nat, r: real) { n as real == r }

  /** A token count that can be trusted: a whole number, or nothing beside a reported cost. */
  ghost predicate Trusted(value: Option<Value>, hasCost: bool)
  {
    if value.None? then hasCost
    else value.value.Number? && value.value.r >= 0.0 && exists n: nat :: IsCount(n, value.value.r)
  }

  lemma TokensExactly(value: Option<Value>, hasCost: bool)
    ensures Tokens(value, hasCost).Some? <==> Trusted(value, hasCost)
    ensures Tokens(value, hasCost).Some? && value.Some? ==> Tokens(value, hasCost).value as real == value.value.r
  {
    if Trusted(value, hasCost) && value.Some? {
      var n: nat :| IsCount(n, value.value.r);
      assert value.value.r.Floor == n;
    }
    if Tokens(value, hasCost).Some? && value.Some? {
      var n: nat := Tokens(value, hasCost).value;
      assert IsCount(n, value.value.r);
    }
  }

  /** A reported cost is taken as it is; without one, both trusted counts are needed and the cost is the
      prompt price for the input and the completion price for the output, each per million. The tokens are
      those the record names, and none where it names none. */
  lemma CostExactly(pricing: Pricing, usage: Usage)
    requires Priced(pricing)
    ensures UsageTotals(pricing, usage).Some? <==>
      && usage.Usage? && !usage.incomplete
      && Trusted(usage.input, usage.cost.Some?) && Trusted(usage.output, usage.cost.Some?)
      && (usage.cost.Some? ==> usage.cost.value.Number? && usage.cost.value.r >= 0.0)
    ensures UsageTotals(pricing, usage).Some? && usage.cost.Some? ==>
      UsageTotals(pricing, usage).value.cost == usage.cost.value.r
    ensures UsageTotals(pricing, usage).Some? && usage.cost.None? ==>
      1000000.0 * UsageTotals(pricing, usage).value.cost ==
        usage.input.value.r * pricing.prompt + usage.output.value.r * pricing.completion
    ensures UsageTotals(pricing, usage).Some? ==>
      var t := UsageTotals(pricing, usage).value;
      && t.input as real == (if usage.input.Some? then usage.input.value.r else 0.0)
      && t.output as real == (if usage.output.Some? then usage.output.value.r else 0.0)
  {
    if usage.Usage? && !usage.incomplete {
      TokensExactly(usage.input, usage.cost.Some?);
      TokensExactly(usage.output, usage.cost.Some?);
      if usage.cost.None? && Trusted(usage.input, false) && Trusted(usage.output, false) {
        ProductIsNonNegative(usage.input.value.r, pricing.prompt);
        ProductIsNonNegative(usage.output.value.r, pricing.completion);
      }
    }
  }

  lemma ProductIsNonNegative(a: real, b: real)
    requires a >= 0.0 && b >= 0.0
    ensures a * b >= 0.0
  {
  }

  /** A price a request may be admitted at. */
  predicate Priced(pricing: Pricing)
  {
    pricing.Known? && pricing.prompt >= 0.0 && pricing.completion >= 0.0
  }

  /** One model request: its price, and what its usage record will turn out to say. */
  datatype Call = Call(pricing: Pricing, totals: Option<Totals>)
  {
    function Bill(): real { if totals.Some? then totals.value.cost else 0.0 }
  }

  /** The ledger of a run, with the calls in flight and the calls settled so far. */
  datatype Ledger = Ledger(
    cost: real, input: nat, output: nat, error: bool, incomplete: bool, open: seq<Call>, settled: seq<Call>)

  datatype Step = Admit(call: Call) | Settle(at: nat)

  predicate Enabled(l: Ledger, s: Step)
  {
    match s
    case Admit(call) => call.Bill() >= 0.0
    case Settle(k) => k < |l.open|
  }

  function Without<T>(s: seq<T>, k: nat): seq<T>
    requires k < |s|
  {
    s[..k] + s[k + 1..]
  }

  /** Booking what a finished call reported. */
  function Booked(maxCost: real, l: Ledger, call: Call): Ledger
  {
    var done := l.(settled := l.settled + [call]);
    match call.totals
    case None => done.(error := true, incomplete := true)
    case Some(t) =>
      done.(cost := l.cost + t.cost, input := l.input + t.input, output := l.output + t.output,
            error := l.error || l.cost + t.cost >= maxCost)
  }

  /** Admission and settlement are each one uninterrupted step, in any order across concurrent calls. */
  function Next(maxCost: real, l: Ledger, s: Step): Ledger
    requires Enabled(l, s)
  {
    match s
    case Admit(call) =>
      if l.error then l
      else if !Priced(call.pricing) then l.(error := true)
      else l.(open := l.open + [call])
    case Settle(k) => Booked(maxCost, l.(open := Without(l.open, k)), l.open[k])
  }

  function BillOf(calls: seq<Call>): real
  {
    if calls == [] then 0.0 else BillOf(calls[..|calls| - 1]) + calls[|calls| - 1].Bill()
  }

  function InputOf(calls: seq<Call>): nat
  {
    if calls == [] then 0 else
      var t := calls[|calls| - 1].totals;
      InputOf(calls[..|calls| - 1]) + (if t.Some? then t.value.input else 0)
  }

  function OutputOf(calls: seq<Call>): nat
  {
    if calls == [] then 0 else
      var t := calls[|calls| - 1].totals;
      OutputOf(calls[..|calls| - 1]) + (if t.Some? then t.value.output else 0)
  }

  lemma {:induction false} BillIsNonNegative(calls: seq<Call>)
    requires forall call :: call in calls ==> call.Bill() >= 0.0
    ensures BillOf(calls) >= 0.0
  {
    if calls != [] {
      var init := calls[..|calls| - 1];
      assert calls == init + [calls[|calls| - 1]];
      BillIsNonNegative(init);
    }
  }

  lemma {:induction false} BillWithout(calls: seq<Call>, k: nat)
    requires k < |calls|
    ensures BillOf(calls) == BillOf(Without(calls, k)) + calls[k].Bill()
  {
    var init := calls[..|calls| - 1];
    if k == |init| {
      assert Without(calls, k) == init;
    } else {
      BillWithout(init, k);
      var rest := Without(calls, k);
      assert rest[..|rest| - 1] == Without(init, k);
    }
  }

  predicate AnyUnknown(calls: seq<Call>) { exists call :: call in calls && call.totals.None? }

  /** The totals are the sums over the calls settled so far. */
  predicate Summed(l: Ledger)
  {
    && l.cost == BillOf(l.settled) && l.input == InputOf(l.settled) && l.output == OutputOf(l.settled)
    && (l.incomplete <==> AnyUnknown(l.settled))
  }

  predicate InFlight(open: seq<Call>)
  {
    forall call :: call in open ==> Priced(call.pricing) && call.Bill() >= 0.0
  }

  /** The ledger adds up, and is below its threshold unless it refuses further calls. */
  predicate Balanced(maxCost: real, l: Ledger)
  {
    && Summed(l) && InFlight(l.open)
    && (!l.error ==> l.cost < maxCost && !l.incomplete)
  }

  lemma OneMoreSettled(settled: seq<Call>, call: Call)
    ensures
      var more := settled + [call];
      && BillOf(more) == BillOf(settled) + call.Bill()
      && InputOf(more) == InputOf(settled) + (if call.totals.Some? then call.totals.value.input else 0)
      && OutputOf(more) == OutputOf(settled) + (if call.totals.Some? then call.totals.value.output else 0)
      && (AnyUnknown(more) <==> AnyUnknown(settled) || call.totals.None?)
  {
    var more := settled + [call];
    assert more[..|more| - 1] == settled;
    assert forall c :: c in more <==> c in settled || c == call;
  }

  lemma BookedAddsUp(maxCost: real, l: Ledger, call: Call)
    requires Summed(l)
    ensures Summed(Booked(maxCost, l, call))
  {
    OneMoreSettled(l.settled, call);
  }

  lemma FewerInFlight(open: seq<Call>, k: nat)
    requires InFlight(open) && k < |open|
    ensures InFlight(Without(open, k))
  {
    forall c | c in Without(open, k) ensures c in open {}
  }

  lemma SettleKeepsBalance(maxCost: real, l: Ledger, k: nat)
    requires Balanced(maxCost, l) && k < |l.open|
    ensures Balanced(maxCost, Next(maxCost, l, Settle(k)))
  {
    FewerInFlight(l.open, k);
    BookedAddsUp(maxCost, l.(open := Without(l.open, k)), l.open[k]);
  }

  lemma StepKeepsBalance(maxCost: real, l: Ledger, s: Step)
    requires Balanced(maxCost, l) && Enabled(l, s)
    ensures Balanced(maxCost, Next(maxCost, l, s))
  {
    match s
    case Admit(call) =>
    case Settle(k) => SettleKeepsBalance(maxCost, l, k);
  }

  /** A refusal is final: nothing is admitted any more, and what is spent and what is still owed add up
      to the same amount from then on. */
  lemma StepAfterError(maxCost: real, l: Ledger, s: Step)
    requires Enabled(l, s) && l.error
    ensures
      var after := Next(maxCost, l, s);
      && after.error && |after.open| <= |l.open| && (s.Admit? ==> after == l)
      && after.cost + BillOf(after.open) == l.cost + BillOf(l.open)
  {
    if s.Settle? { BillWithout(l.open, s.at); }
  }

  const EMPTY := Ledger(0.0, 0, 0, false, false, [], [])

  ghost predicate Behaviour(maxCost: real, states: seq<Ledger>, steps: seq<Step>)
  {
    && maxCost > 0.0
    && |states| == |steps| + 1 && states[0] == EMPTY
    && forall i :: 0 <= i < |steps| ==>
         Enabled(states[i], steps[i]) && states[i + 1] == Next(maxCost, states[i], steps[i])
  }

  /** Under any interleaving the ledger is the exact sum of the validly settled calls. */
  lemma {:induction false} AlwaysBalanced(maxCost: real, states: seq<Ledger>, steps: seq<Step>, i: nat)
    requires Behaviour(maxCost, states, steps) && i < |states|
    ensures Balanced(maxCost, states[i])
  {
    if i > 0 {
      AlwaysBalanced(maxCost, states, steps, i - 1);
      StepKeepsBalance(maxCost, states[i - 1], steps[i - 1]);
    }
  }

  /** A call at a price that is unknown or negative. */
  predicate Unpriceable(s: Step)
  {
    s.Admit? && (s.call.pricing.Unknown? || s.call.pricing.prompt < 0.0 || s.call.pricing.completion < 0.0)
  }

  lemma StepRefuses(maxCost: real, l: Ledger, s: Step)
    requires Enabled(l, s) && InFlight(l.open)
    ensures
      var after := Next(maxCost, l, s);
      && l.cost <= after.cost
      && (after.error <==>
            || l.error || Unpriceable(s)
            || (s.Settle? && (after.cost >= maxCost || l.open[s.at].totals.None?)))
  {
    assert s.Settle? ==> l.open[s.at] in l.open;
  }

  /** Calls are refused exactly once the money is spent, some spend is unknown, or a call at no known price was
      asked for. */
  lemma {:induction false} RefusesExactly(maxCost: real, states: seq<Ledger>, steps: seq<Step>, i: nat)
    requires Behaviour(maxCost, states, steps) && i < |states|
    ensures states[i].error <==>
      || states[i].cost >= maxCost || AnyUnknown(states[i].settled)
      || exists k :: 0 <= k < i && Unpriceable(steps[k])
  {
    if i > 0 {
      RefusesExactly(maxCost, states, steps, i - 1);
      AlwaysBalanced(maxCost, states, steps, i - 1);
      AlwaysBalanced(maxCost, states, steps, i);
      var before, s := states[i - 1], steps[i - 1];
      StepRefuses(maxCost, before, s);
      if s.Settle? { OneMoreSettled(before.settled, before.open[s.at]); }
      if k :| 0 <= k < i && Unpriceable(steps[k]) { assert k < i - 1 || k == i - 1; }
    }
  }

  lemma {:induction false} OwedIsConserved(maxCost: real, states: seq<Ledger>, steps: seq<Step>, i: nat, j: nat)
    requires Behaviour(maxCost, states, steps) && i <= j < |states| && states[i].error
    ensures states[j].error
    ensures states[j].cost + BillOf(states[j].open) == states[i].cost + BillOf(states[i].open)
    ensures |states[j].open| <= |states[i].open|
    decreases j
  {
    if i < j {
      OwedIsConserved(maxCost, states, steps, i, j - 1);
      StepAfterError(maxCost, states[j - 1], steps[j - 1]);
    }
  }

  lemma FirstError(maxCost: real, l: Ledger, s: Step)
    requires Enabled(l, s) && !l.error && Next(maxCost, l, s).error
    ensures Next(maxCost, l, s).cost + BillOf(Next(maxCost, l, s).open) == l.cost + BillOf(l.open)
  {
    if s.Settle? { BillWithout(l.open, s.at); }
  }

  /** Nothing is admitted once a call was refused or the threshold crossed, and the overshoot is only
      what was already in flight: spending stays below the threshold plus the cost of the calls open at
      that moment, and is exactly what had been spent plus those calls once all are settled. */
  lemma OvershootIsInFlight(maxCost: real, states: seq<Ledger>, steps: seq<Step>, i: nat, j: nat)
    requires Behaviour(maxCost, states, steps) && i < j < |states|
    requires !states[i].error && states[i + 1].error
    ensures forall k :: i < k < j && steps[k].Admit? ==> states[k + 1] == states[k]
    ensures states[j].cost < maxCost + BillOf(states[i].open)
    ensures states[j].open == [] ==> states[j].cost == states[i].cost + BillOf(states[i].open)
  {
    forall k | i < k < j && steps[k].Admit? ensures states[k + 1] == states[k] {
      OwedIsConserved(maxCost, states, steps, i + 1, k);
    }
    AlwaysBalanced(maxCost, states, steps, i);
    FirstError(maxCost, states[i], steps[i]);
    OwedIsConserved(maxCost, states, steps, i + 1, j);
    AlwaysBalanced(maxCost, states, steps, j);
    BillIsNonNegative(states[j].open);
  }

  /** The provider wrapper; its two halves run around each streamed call. */
  class BudgetedProvider {
    const maxCost: real
    var costUsd: real
    var inputTokens: nat
    var outputTokens: nat
    var error: bool
    var usageIncomplete: bool
    ghost var open: seq<Call>
    ghost var settled: seq<Call>

    ghost function State(): Ledger
      reads this
    {
      Ledger(costUsd, inputTokens, outputTokens, error, usageIncomplete, open, settled)
    }

    constructor (maxCost: real)
      requires maxCost > 0.0
      ensures this.maxCost == maxCost && State() == EMPTY && Balanced(maxCost, State())
    {
      this.maxCost := maxCost;
      costUsd, inputTokens, outputTokens, error, usageIncomplete := 0.0, 0, 0, false, false;
      open, settled := [], [];
    }

    /** Whether the call may start. */
    method Check(pricing: Pricing, ghost usage: Usage) returns (admitted: bool)
      requires Balanced(maxCost, State())
      modifies this
      ensures State() == Next(maxCost, old(State()), Admit(Call(pricing, UsageTotals(pricing, usage))))
      ensures Balanced(maxCost, State())
      ensures admitted <==> !error
      ensures admitted <==>
        !old(error) && pricing.Known? && pricing.prompt >= 0.0 && pricing.completion >= 0.0
    {
      ghost var call := Call(pricing, UsageTotals(pricing, usage));
      StepKeepsBalance(maxCost, State(), Admit(call));
      if error { return false; }
      if !Priced(pricing) {
        error := true;
        return false;
      }
      open := open + [call];
      return true;
    }

    method Book(call: Call, ghost k: nat)
      requires Balanced(maxCost, State()) && k < |open| && open[k] == call
      modifies this
      ensures State() == Next(maxCost, old(State()), Step.Settle(k)) && Balanced(maxCost, State())
    {
      StepKeepsBalance(maxCost, State(), Step.Settle(k));
      open, settled := Without(open, k), settled + [call];
      match call.totals
      case None =>
        usageIncomplete, error := true, true;
      case Some(totals) =>
        inputTokens := inputTokens + totals.input;
        outputTokens := outputTokens + totals.output;
        costUsd := costUsd + totals.cost;
        if costUsd >= maxCost { error := true; }
    }

    /** Books the usage a finished call reported; `valid` is false when its spend is unknown. */
    method Settle(pricing: Pricing, usage: Usage, ghost k: nat) returns (valid: bool)
      requires Balanced(maxCost, State()) && k < |open| && open[k] == Call(pricing, UsageTotals(pricing, usage))
      modifies this
      ensures State() == Next(maxCost, old(State()), Step.Settle(k)) && Balanced(maxCost, State())
      ensures valid <==> UsageTotals(pricing, usage).Some?
    {
      var totals := UsageTotals(pricing, usage);
      Book(Call(pricing, totals), k);
      valid := totals.Some?;
    }
  }
}
