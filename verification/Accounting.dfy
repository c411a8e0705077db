/**
 * Reserve-before-dispatch accounting (evaluations/held_out/comparison.py) and disjoint allocations of
 * one balance (evaluations/held_out/release_validation.py).
 */
module Accounting {
  import opened Wrappers
  import opened Sequences

  datatype Rates = Rates(input: real, output: real)

  datatype Limits = Limits(calls: nat, tokens: int, usd: real, bytesPerCall: nat, outputPerCall: nat)

  datatype Status = Pending | Succeeded | Errored

  /** One physical attempt; usage is unknown until a response reports it. */
  datatype Call = Call(reserveIn: nat, reserveOut: nat, input: Option<int>, output: Option<int>, status: Status)

  datatype Stop = BudgetExhausted | InvalidUsage | ExceededReservation
    | HttpRefusal(code: nat) | ModelChanged | Interrupted

  /** What happens to a dispatched call. */
  datatype Outcome =
    | Responded(usage: Option<(int, int)>, complete: bool)
    | Failed(http: Option<nat>)

  datatype Account = Account(calls: seq<Call>, stopped: Option<Stop>)

  datatype Decision = Dispatched | Refused(stop: Stop) | TooLarge

  // ---------------------------------------------------------------- charges

  function Known(v: Option<int>, reserve: nat): int {
    if v.Some? then v.value else reserve
  }

  function Inputs(calls: seq<Call>): int {
    if calls == [] then 0 else Inputs(calls[..|calls|-1]) + Known(calls[|calls|-1].input, calls[|calls|-1].reserveIn)
  }

  function Outputs(calls: seq<Call>): int {
    if calls == [] then 0 else Outputs(calls[..|calls|-1]) + Known(calls[|calls|-1].output, calls[|calls|-1].reserveOut)
  }

  function Price(r: Rates, inputs: int, outputs: int): real {
    (inputs as real * r.input + outputs as real * r.output) / 1000000.0
  }

  /** The charge: reported usage, or the reservation where usage is unknown. */
  function Tokens(calls: seq<Call>): int {
    Inputs(calls) + Outputs(calls)
  }

  function Cost(r: Rates, calls: seq<Call>): real {
    Price(r, Inputs(calls), Outputs(calls))
  }

  /** What one call is charged: its tokens of each kind at that kind's rate per million. */
  function CallCost(r: Rates, c: Call): real {
    Known(c.input, c.reserveIn) as real * (r.input / 1000000.0)
      + Known(c.output, c.reserveOut) as real * (r.output / 1000000.0)
  }

  function SumOfCosts(r: Rates, calls: seq<Call>): real {
    if calls == [] then 0.0 else SumOfCosts(r, calls[..|calls|-1]) + CallCost(r, calls[|calls|-1])
  }

  /** Pricing the summed tokens charges exactly what its calls are charged one by one. */
  lemma {:induction false} CostIsSumOfCalls(r: Rates, calls: seq<Call>)
    ensures Cost(r, calls) == SumOfCosts(r, calls)
  {
    if calls != [] {
      var init, c := calls[..|calls|-1], calls[|calls|-1];
      CostIsSumOfCalls(r, init);
      PriceAdds(r, Inputs(init), Outputs(init), Known(c.input, c.reserveIn), Known(c.output, c.reserveOut));
      PriceOfCall(r, c);
    } else {
      assert Price(r, 0, 0) == 0.0;
    }
  }

  lemma PriceOfCall(r: Rates, c: Call)
    ensures Price(r, Known(c.input, c.reserveIn), Known(c.output, c.reserveOut)) == CallCost(r, c)
  {
    var i, o := Known(c.input, c.reserveIn) as real, Known(c.output, c.reserveOut) as real;
    assert i * r.input / 1000000.0 == i * (r.input / 1000000.0);
    assert o * r.output / 1000000.0 == o * (r.output / 1000000.0);
  }

  // ---------------------------------------------------------------- the two atomic sections

  /** Admission, between two awaits: check everything, then reserve and append. */
  function Admit(a: Account, l: Limits, r: Rates, bytes: nat, late: bool): (Account, Decision) {
    var reserveIn, reserveOut := bytes + 512, l.outputPerCall;
    if a.stopped.Some? then (a, Refused(a.stopped.value))
    else if |a.calls| >= l.calls || Tokens(a.calls) + reserveIn + reserveOut > l.tokens
            || Cost(r, a.calls) + Price(r, reserveIn, reserveOut) > l.usd || late then
      (a.(stopped := Some(BudgetExhausted)), Refused(BudgetExhausted))
    else if bytes > l.bytesPerCall then (a, TooLarge)
    else (a.(calls := a.calls + [Call(reserveIn, reserveOut, None, None, Pending)]), Dispatched)
  }

  /** The call as it would go out: a token for each byte and some more, and all the output it may produce. */
  function Asked(l: Limits, bytes: nat): Call {
    Call(bytes + 512, l.outputPerCall, None, None, Pending)
  }

  /** Its whole reservation still fits beside what is charged, and so does the call itself. */
  ghost predicate HasRoom(calls: seq<Call>, l: Limits, r: Rates, c: Call) {
    && |calls| < l.calls
    && SumOfTokens(calls) + c.reserveIn + c.reserveOut <= l.tokens
    && SumOfCosts(r, calls) + CallCost(r, c) <= l.usd
  }

  /** What each call is charged in tokens: what was reported, or its reservation. */
  function SumOfTokens(calls: seq<Call>): int {
    if calls == [] then 0
    else
      var c := calls[|calls|-1];
      SumOfTokens(calls[..|calls|-1]) + (if c.input.Some? then c.input.value else c.reserveIn)
        + (if c.output.Some? then c.output.value else c.reserveOut)
  }

  lemma {:induction false} TokensAreSum(calls: seq<Call>)
    ensures Tokens(calls) == SumOfTokens(calls)
  {
    if calls != [] { TokensAreSum(calls[..|calls|-1]); }
  }

  /**
   * A call goes out exactly if the ledger runs, time is left, it has room, and its input is not too long; a
   * ledger still running refuses, and stops, exactly if time or room is missing; and the call that goes out is
   * the one asked for, pending, after all others.
   */
  lemma DispatchExactly(a: Account, l: Limits, r: Rates, bytes: nat, late: bool)
    ensures var (after, d) := Admit(a, l, r, bytes, late);
            var room := HasRoom(a.calls, l, r, Asked(l, bytes));
            && (d == Dispatched <==> a.stopped.None? && !late && room && bytes <= l.bytesPerCall)
            && (d == TooLarge <==> a.stopped.None? && !late && room && bytes > l.bytesPerCall)
            && (a.stopped.None? ==> (d == Refused(BudgetExhausted) <==> late || !room))
            && (d == Dispatched ==> after == a.(calls := a.calls + [Asked(l, bytes)]))
            && (d == TooLarge ==> after == a)
  {
    TokensAreSum(a.calls);
    CostIsSumOfCalls(r, a.calls);
    PriceOfCall(r, Asked(l, bytes));
    hide Tokens, SumOfTokens, Cost, SumOfCosts, Price, CallCost;
  }

  predicate StopsRun(http: Option<nat>) {
    http.Some? && http.value in [400, 401, 403, 404, 429]
  }

  /** The response, recorded without an await in between. */
  function Settle(a: Account, i: nat, o: Outcome): Account
    requires i < |a.calls|
  {
    var c := a.calls[i];
    match o
    case Failed(http) =>
      Account(a.calls[i := c.(status := Errored)], if StopsRun(http) then Some(HttpRefusal(http.value)) else a.stopped)
    case Responded(usage, complete) =>
      var used := if usage.None? then c else c.(input := Some(usage.value.0), output := Some(usage.value.1));
      if usage.None? || usage.value.0 <= 0 || usage.value.1 <= 0 then
        Account(a.calls[i := used.(status := Errored)], Some(InvalidUsage))
      else if usage.value.0 > c.reserveIn || usage.value.1 > c.reserveOut then
        Account(a.calls[i := used.(status := Errored)], Some(ExceededReservation))
      else Account(a.calls[i := used.(status := if complete then Succeeded else Errored)], a.stopped)
  }

  function Cleaned(v: Option<int>): Option<int> {
    if v.Some? && v.value <= 0 then None else v
  }

  /** The release ledger's last word on a call: an impossible count is forgotten, so its reservation stands. */
  function Forget(a: Account, i: nat): Account
    requires i < |a.calls|
  {
    var c := a.calls[i];
    a.(calls := a.calls[i := c.(input := Cleaned(c.input), output := Cleaned(c.output))])
  }

  /** A changed model or an interruption stops the run. */
  function Halt(a: Account, why: Stop): Account {
    a.(stopped := if a.stopped.Some? then a.stopped else Some(why))
  }

  // ---------------------------------------------------------------- the invariant

  /** A count within its reservation, or none. */
  predicate Sound(v: Option<int>, reserve: nat) {
    v.Some? ==> 0 < v.value <= reserve
  }

  predicate Overrun(c: Call) {
    (c.input.Some? && c.input.value > c.reserveIn) || (c.output.Some? && c.output.value > c.reserveOut)
  }

  ghost predicate AllSound(calls: seq<Call>) {
    forall i :: 0 <= i < |calls| ==>
        Sound(calls[i].input, calls[i].reserveIn) && Sound(calls[i].output, calls[i].reserveOut)
  }

  ghost predicate NoOverrun(calls: seq<Call>) {
    forall i :: 0 <= i < |calls| ==> !Overrun(calls[i])
  }

  /** The calls as the release ledger finally counts them. */
  function Tidy(calls: seq<Call>): (r: seq<Call>)
    ensures |r| == |calls|
  {
    seq(|calls|, i requires 0 <= i < |calls| =>
        calls[i].(input := Cleaned(calls[i].input), output := Cleaned(calls[i].output)))
  }

  ghost predicate WithinCaps(calls: seq<Call>, l: Limits, r: Rates) {
    Tokens(calls) <= l.tokens && Cost(r, calls) <= l.usd && |calls| <= l.calls
  }

  /**
   * Never more calls than allowed; while the run goes on every reported count is sound and the charge
   * is within the caps; and unless a provider overran a reservation, the final charge is too.
   */
  ghost predicate Solvent(a: Account, l: Limits, r: Rates) {
    && |a.calls| <= l.calls
    && (a.stopped.None? ==> AllSound(a.calls))
    && (NoOverrun(a.calls) ==> WithinCaps(Tidy(a.calls), l, r))
  }

  lemma SoundIsTidy(calls: seq<Call>)
    requires AllSound(calls)
    ensures Tidy(calls) == calls && NoOverrun(calls)
  {
    forall i | 0 <= i < |calls| ensures Tidy(calls)[i] == calls[i] && !Overrun(calls[i]) {
      assert Sound(calls[i].input, calls[i].reserveIn) && Sound(calls[i].output, calls[i].reserveOut);
    }
  }

  /** While the run is not stopped, the charge itself is within the caps. */
  lemma RunningIsWithinCaps(a: Account, l: Limits, r: Rates)
    requires Solvent(a, l, r) && a.stopped.None?
    ensures WithinCaps(a.calls, l, r)
  {
    SoundIsTidy(a.calls);
  }

  lemma SumSnoc(calls: seq<Call>, c: Call)
    ensures Inputs(calls + [c]) == Inputs(calls) + Known(c.input, c.reserveIn)
    ensures Outputs(calls + [c]) == Outputs(calls) + Known(c.output, c.reserveOut)
  {
    assert (calls + [c])[..|calls|] == calls;
  }

  lemma {:induction false} SumUpdate(calls: seq<Call>, i: nat, c: Call)
    requires i < |calls|
    ensures Inputs(calls[i := c]) ==
              Inputs(calls) - Known(calls[i].input, calls[i].reserveIn) + Known(c.input, c.reserveIn)
    ensures Outputs(calls[i := c]) ==
              Outputs(calls) - Known(calls[i].output, calls[i].reserveOut) + Known(c.output, c.reserveOut)
  {
    var init := calls[..|calls|-1];
    if i == |calls| - 1 {
      assert calls[i := c][..|calls|-1] == init;
    } else {
      SumUpdate(init, i, c);
      assert calls[i := c][..|calls|-1] == init[i := c];
    }
  }

  lemma PriceGrows(r: Rates, a: int, b: int, c: int, d: int)
    requires 0.0 <= r.input && 0.0 <= r.output && a <= c && b <= d
    ensures Price(r, a, b) <= Price(r, c, d)
  {
    Scaled(a, c, r.input);
    Scaled(b, d, r.output);
  }

  lemma Scaled(a: int, b: int, k: real)
    requires 0.0 <= k && a <= b
    ensures a as real * k <= b as real * k
  {
    assert (b - a) as real * k >= 0.0;
  }

  lemma PriceAdds(r: Rates, a: int, b: int, c: int, d: int)
    ensures Price(r, a + c, b + d) == Price(r, a, b) + Price(r, c, d)
  {
    assert (a + c) as real * r.input == a as real * r.input + c as real * r.input;
    assert (b + d) as real * r.output == b as real * r.output + d as real * r.output;
  }

  predicate Charging(r: Rates) {
    0.0 <= r.input && 0.0 <= r.output
  }

  /** Admission reserves only what the caps still allow. */
  lemma AdmitKeepsSolvent(a: Account, l: Limits, r: Rates, bytes: nat, late: bool)
    requires Solvent(a, l, r) && Charging(r)
    ensures Solvent(Admit(a, l, r, bytes, late).0, l, r)
  {
    var d := Admit(a, l, r, bytes, late);
    if d.1.Dispatched? {
      var c := Call(bytes + 512, l.outputPerCall, None, None, Pending);
      SoundIsTidy(a.calls);
      SumSnoc(a.calls, c);
      PriceAdds(r, Inputs(a.calls), Outputs(a.calls), c.reserveIn, c.reserveOut);
      hide Price, Inputs, Outputs;
      assert AllSound(a.calls + [c]);
      SoundIsTidy(a.calls + [c]);
    }
  }

  /** What one call counts for in the end. */
  function Final(v: Option<int>, reserve: nat): int {
    Known(Cleaned(v), reserve)
  }

  lemma UpdateKeepsCaps(a: Account, l: Limits, r: Rates, i: nat, c: Call)
    requires i < |a.calls| && Charging(r) && WithinCaps(Tidy(a.calls), l, r)
    requires Final(c.input, c.reserveIn) <= Final(a.calls[i].input, a.calls[i].reserveIn)
    requires Final(c.output, c.reserveOut) <= Final(a.calls[i].output, a.calls[i].reserveOut)
    ensures WithinCaps(Tidy(a.calls[i := c]), l, r)
  {
    var tidy, t := Tidy(a.calls), c.(input := Cleaned(c.input), output := Cleaned(c.output));
    assert Tidy(a.calls[i := c]) == tidy[i := t];
    SumUpdate(tidy, i, t);
    PriceGrows(r, Inputs(tidy[i := t]), Outputs(tidy[i := t]), Inputs(tidy), Outputs(tidy));
    hide Price, Inputs, Outputs;
  }

  lemma NoOverrunBefore(calls: seq<Call>, i: nat, c: Call)
    requires i < |calls| && !Overrun(calls[i]) && NoOverrun(calls[i := c])
    ensures NoOverrun(calls)
  {
    forall j | 0 <= j < |calls| ensures !Overrun(calls[j]) {
      if j != i { assert calls[i := c][j] == calls[j]; }
    }
  }

  /** A response settles a pending call, one that has reported nothing yet. */
  lemma SettleKeepsSolvent(a: Account, l: Limits, r: Rates, i: nat, o: Outcome)
    requires Solvent(a, l, r) && Charging(r) && i < |a.calls| && a.calls[i].input == None && a.calls[i].output == None
    ensures Solvent(Settle(a, i, o), l, r)
  {
    var b := Settle(a, i, o);
    var c := b.calls[i];
    assert b.calls == a.calls[i := c];
    if NoOverrun(b.calls) {
      assert !Overrun(c);
      NoOverrunBefore(a.calls, i, c);
      UpdateKeepsCaps(a, l, r, i, c);
    }
    hide WithinCaps, NoOverrun, Tidy;
    if b.stopped.None? {
      forall j | 0 <= j < |b.calls|
        ensures Sound(b.calls[j].input, b.calls[j].reserveIn) && Sound(b.calls[j].output, b.calls[j].reserveOut) {
        if j != i { assert b.calls[j] == a.calls[j]; }
      }
    }
  }

  /** A positive count stays and any other becomes unknown. */
  ghost predicate Plausible(before: Option<int>, after: Option<int>) {
    forall v: int :: after == Some(v) <==> before == Some(v) && 0 < v
  }

  lemma ForgetKeepsSolvent(a: Account, l: Limits, r: Rates, i: nat)
    requires Solvent(a, l, r) && i < |a.calls|
    ensures Solvent(Forget(a, i), l, r)
    ensures Plausible(a.calls[i].input, Forget(a, i).calls[i].input)
    ensures Plausible(a.calls[i].output, Forget(a, i).calls[i].output)
    ensures exists c :: Forget(a, i) == a.(calls := a.calls[i := c]) && c.status == a.calls[i].status
                        && c.reserveIn == a.calls[i].reserveIn && c.reserveOut == a.calls[i].reserveOut
  {
    var b := Forget(a, i);
    assert b == a.(calls := a.calls[i := b.calls[i]]);
    assert Tidy(b.calls) == Tidy(a.calls);
    forall j | 0 <= j < |b.calls| ensures Overrun(a.calls[j]) ==> Overrun(b.calls[j]) {}
    hide WithinCaps;
    assert NoOverrun(b.calls) ==> NoOverrun(a.calls) by {
      if NoOverrun(b.calls) {
        forall j | 0 <= j < |a.calls| ensures !Overrun(a.calls[j]) { assert !Overrun(b.calls[j]); }
      }
    }
  }

  // ---------------------------------------------------------------- runs of one ledger

  datatype Event = Requests(bytes: nat, late: bool) | Settles(index: nat, outcome: Outcome) | Forgets(index: nat)
    | Halts(why: Stop)

  /** A call settles once: its usage is still unknown. */
  predicate Enabled(a: Account, e: Event) {
    match e
    case Requests(_, _) => true
    case Settles(i, _) => i < |a.calls| && a.calls[i].input == None && a.calls[i].output == None
    case Forgets(i) => i < |a.calls|
    case Halts(_) => true
  }

  function Next(a: Account, l: Limits, r: Rates, e: Event): Account
    requires Enabled(a, e)
  {
    match e
    case Requests(bytes, late) => Admit(a, l, r, bytes, late).0
    case Settles(i, o) => Settle(a, i, o)
    case Forgets(i) => Forget(a, i)
    case Halts(why) => Halt(a, why)
  }

  lemma NextKeepsSolvent(a: Account, l: Limits, r: Rates, e: Event)
    requires Solvent(a, l, r) && Charging(r) && Enabled(a, e)
    ensures Solvent(Next(a, l, r, e), l, r)
    ensures a.stopped.Some? ==> Next(a, l, r, e).stopped.Some? && |Next(a, l, r, e).calls| == |a.calls|
    ensures a.stopped.Some? && !e.Settles? ==> Next(a, l, r, e).stopped == a.stopped
    ensures e.Halts? ==> Next(a, l, r, e).calls == a.calls
    ensures e.Halts? && a.stopped.None? ==> Next(a, l, r, e).stopped == Some(e.why)
  {
    match e
    case Requests(bytes, late) => AdmitKeepsSolvent(a, l, r, bytes, late);
    case Settles(i, o) => SettleKeepsSolvent(a, l, r, i, o);
    case Forgets(i) => ForgetKeepsSolvent(a, l, r, i);
    case Halts(_) =>
  }

  ghost predicate Run(run: seq<Account>, events: seq<Event>, l: Limits, r: Rates) {
    && |run| == |events| + 1 && run[0] == Account([], None) && 0 <= l.tokens && 0.0 <= l.usd && Charging(r)
    && forall i :: 0 <= i < |events| ==> StepAt(run, events, l, r, i)
  }

  ghost predicate StepAt(run: seq<Account>, events: seq<Event>, l: Limits, r: Rates, i: nat)
    requires i < |events| && |run| == |events| + 1
  {
    Enabled(run[i], events[i]) && run[i+1] == Next(run[i], l, r, events[i])
  }

  /**
   * In every interleaving of concurrent calls: calls never exceed the maximum; while the run is not
   * stopped the charge is within the token and cost caps; and unless a reservation was overrun, the
   * final charge is within them even after the stop.
   */
  lemma {:induction false} RunStaysSolvent(run: seq<Account>, events: seq<Event>, l: Limits, r: Rates, i: nat)
    requires Run(run, events, l, r) && i < |run|
    ensures Solvent(run[i], l, r)
    ensures run[i].stopped.None? ==> WithinCaps(run[i].calls, l, r)
  {
    hide Next, Solvent;
    if i == 0 {
      StartSolvent(l, r);
    } else {
      RunStaysSolvent(run, events, l, r, i - 1);
      assert StepAt(run, events, l, r, i - 1);
      NextKeepsSolvent(run[i - 1], l, r, events[i - 1]);
    }
    if run[i].stopped.None? { RunningIsWithinCaps(run[i], l, r); }
  }

  lemma StartSolvent(l: Limits, r: Rates)
    requires 0 <= l.tokens && 0.0 <= l.usd
    ensures Solvent(Account([], None), l, r)
  {
    assert Tidy([]) == [];
    assert Price(r, 0, 0) == 0.0;
  }

  /** Once stopped, a ledger stays stopped and dispatches nothing more, and only a response changes the reason. */
  lemma {:induction false} NothingAfterStop(run: seq<Account>, events: seq<Event>, l: Limits, r: Rates, i: nat, j: nat)
    requires Run(run, events, l, r) && i <= j < |run| && run[i].stopped.Some?
    ensures run[j].stopped.Some? && |run[j].calls| == |run[i].calls|
    ensures run[j].stopped == run[i].stopped || exists k :: i <= k < j && events[k].Settles?
    decreases j
  {
    hide Next, Solvent;
    if i < j {
      NothingAfterStop(run, events, l, r, i, j - 1);
      RunStaysSolvent(run, events, l, r, j - 1);
      assert StepAt(run, events, l, r, j - 1);
      NextKeepsSolvent(run[j - 1], l, r, events[j - 1]);
    }
  }

  /** Reported counts are positive and within the call's reservation. */
  predicate Usable(c: Call, usage: Option<(int, int)>) {
    usage.Some? && 0 < usage.value.0 <= c.reserveIn && 0 < usage.value.1 <= c.reserveOut
  }

  // ---------------------------------------------------------------- the ledger object

  class Ledger {
    var calls: seq<Call>
    var stopped: Option<Stop>
    const limits: Limits
    const rates: Rates

    function Now(): Account
      reads this
    {
      Account(calls, stopped)
    }

    ghost predicate Valid()
      reads this
    {
      Charging(rates) && Solvent(Now(), limits, rates)
    }

    constructor (l: Limits, r: Rates)
      ensures Now() == Account([], None) && limits == l && rates == r
      ensures 0 <= l.tokens && 0.0 <= l.usd && Charging(r) ==> Valid()
    {
      if 0 <= l.tokens && 0.0 <= l.usd { StartSolvent(l, r); }
      calls, stopped, limits, rates := [], None, l, r;
    }

    /** The two sums over the calls. */
    method Reserved() returns (tokens: int, cost: real)
      ensures tokens == Tokens(calls) && cost == Cost(rates, calls)
    {
      var inputs, outputs := 0, 0;
      for i := 0 to |calls|
        invariant inputs == Inputs(calls[..i]) && outputs == Outputs(calls[..i])
      {
        assert calls[..i+1][..i] == calls[..i];
        inputs := inputs + if calls[i].input.Some? then calls[i].input.value else calls[i].reserveIn;
        outputs := outputs + if calls[i].output.Some? then calls[i].output.value else calls[i].reserveOut;
      }
      assert calls[..|calls|] == calls;
      tokens, cost := inputs + outputs, Price(rates, inputs, outputs);
    }

    /**
     * The admission section.  A call goes out only while the ledger runs, with its whole reservation added
     * to a charge that still fits the caps; a refusal stops the ledger for good and adds nothing.
     */
    method TryDispatch(bytes: nat, late: bool) returns (d: Decision)
      modifies this
      ensures (Now(), d) == Admit(old(Now()), limits, rates, bytes, late)
      ensures old(Valid()) ==> Valid()
      ensures old(stopped).Some? ==> Now() == old(Now()) && d == Refused(old(stopped).value)
      ensures d.Dispatched? ==> stopped.None? && |calls| == |old(calls)| + 1 && old(calls) <= calls
      ensures d.Dispatched? && old(Valid()) ==> WithinCaps(calls, limits, rates)
      ensures !d.Dispatched? ==> calls == old(calls)
      ensures d.Refused? ==> stopped == Some(d.stop)
      ensures d == Dispatched <==> old(stopped).None? && !late && bytes <= limits.bytesPerCall &&
                                   HasRoom(old(calls), limits, rates, Asked(limits, bytes))
      ensures d == Dispatched ==> calls == old(calls) + [Asked(limits, bytes)]
    {
      DispatchExactly(Now(), limits, rates, bytes, late);
      if Charging(rates) && Solvent(Now(), limits, rates) {
        AdmitKeepsSolvent(Now(), limits, rates, bytes, late);
        var after := Admit(Now(), limits, rates, bytes, late).0;
        if after.stopped.None? { RunningIsWithinCaps(after, limits, rates); }
      }
      hide Solvent, WithinCaps, HasRoom, Price, Inputs, Outputs;
      var reserveIn, reserveOut := bytes + 512, limits.outputPerCall;
      var tokens, cost := Reserved();
      if stopped.Some? {
        return Refused(stopped.value);
      }
      if |calls| >= limits.calls || tokens + reserveIn + reserveOut > limits.tokens
         || cost + Price(rates, reserveIn, reserveOut) > limits.usd || late {
        stopped := Some(BudgetExhausted);
        return Refused(BudgetExhausted);
      }
      if bytes > limits.bytesPerCall {
        return TooLarge;
      }
      calls := calls + [Call(reserveIn, reserveOut, None, None, Pending)];
      return Dispatched;
    }

    /**
     * The settlement section.  Only that call changes, it is no longer pending, and a ledger that has
     * stopped stays stopped.  An impossible or missing count, or one above the reservation, stops it.
     */
    method Record(i: nat, o: Outcome)
      requires i < |calls|
      modifies this
      ensures Now() == Settle(old(Now()), i, o)
      ensures old(Valid()) && old(calls)[i].input == None && old(calls)[i].output == None ==> Valid()
      ensures |calls| == |old(calls)| && calls[i].status != Pending
              && (forall j :: 0 <= j < |calls| && j != i ==> calls[j] == old(calls)[j])
      ensures old(stopped).Some? ==> stopped.Some?
      ensures o.Responded? ==>
                stopped.Some? ||
                (Sound(calls[i].input, calls[i].reserveIn) && Sound(calls[i].output, calls[i].reserveOut))
      ensures calls[i].status == Succeeded ==>
                o.Responded? && o.complete && o.usage == Some((Known(calls[i].input, 0), Known(calls[i].output, 0)))
      ensures calls[i].status == Succeeded <==> o.Responded? && o.complete && Usable(old(calls)[i], o.usage)
      ensures if o.Responded? && o.usage.Some? then
                calls[i].input == Some(o.usage.value.0) && calls[i].output == Some(o.usage.value.1)
              else calls[i].input == old(calls)[i].input && calls[i].output == old(calls)[i].output
      ensures o.Responded? ==>
                && (Usable(old(calls)[i], o.usage) ==> stopped == old(stopped))
                && (!Usable(old(calls)[i], o.usage) ==>
                      stopped == Some(if o.usage.Some? && 0 < o.usage.value.0 && 0 < o.usage.value.1
                                      then ExceededReservation else InvalidUsage))
      ensures o.Failed? ==>
                stopped == if o.http.Some? && o.http.value in {400, 401, 403, 404, 429}
                           then Some(HttpRefusal(o.http.value)) else old(stopped)
    {
      ghost var before := Now();
      if Charging(rates) && Solvent(before, limits, rates) && before.calls[i].input == None
        && before.calls[i].output == None {
        SettleKeepsSolvent(before, limits, rates, i, o);
      }
      hide Solvent;
      var c := calls[i];
      match o {
        case Failed(http) =>
          calls := calls[i := c.(status := Errored)];
          if StopsRun(http) {
            stopped := Some(HttpRefusal(http.value));
          }
        case Responded(usage, complete) =>
          if usage.Some? {
            c := c.(input := Some(usage.value.0), output := Some(usage.value.1));
          }
          if usage.None? || usage.value.0 <= 0 || usage.value.1 <= 0 {
            stopped := Some(InvalidUsage);
            c := c.(status := Errored);
          } else if usage.value.0 > c.reserveIn || usage.value.1 > c.reserveOut {
            stopped := Some(ExceededReservation);
            c := c.(status := Errored);
          } else {
            c := c.(status := if complete then Succeeded else Errored);
          }
          calls := calls[i := c];
      }
    }
  }

  // ---------------------------------------------------------------- allocations

  datatype Allocation = Allocation(id: string, calls: nat, tokens: int, usd: real)

  /** The audited baseline's remaining balance. */
  datatype Balance = Balance(calls: nat, tokens: int, usd: real)

  function SumCalls(book: seq<Allocation>): int {
    if book == [] then 0 else SumCalls(book[..|book|-1]) + book[|book|-1].calls
  }

  function SumTokens(book: seq<Allocation>): int {
    if book == [] then 0 else SumTokens(book[..|book|-1]) + book[|book|-1].tokens
  }

  function SumUsd(book: seq<Allocation>): real {
    if book == [] then 0.0 else SumUsd(book[..|book|-1]) + book[|book|-1].usd
  }

  predicate Positive(a: Allocation) {
    0 < a.calls && 0 < a.tokens && 0.0 < a.usd
  }

  function Entry(book: seq<Allocation>, id: string): Option<Allocation> {
    if book == [] then None
    else if book[|book|-1].id == id then Some(book[|book|-1]) else Entry(book[..|book|-1], id)
  }

  /** `verify_allocation`: the book fits the balance and the plan fits its entry. */
  predicate Verifies(book: seq<Allocation>, b: Balance, id: string, l: Limits) {
    && (forall i :: 0 <= i < |book| ==> Positive(book[i]))
    && SumCalls(book) <= b.calls && SumTokens(book) <= b.tokens && SumUsd(book) <= b.usd
    && Entry(book, id).Some?
    && l.calls <= Entry(book, id).value.calls && l.tokens <= Entry(book, id).value.tokens
       && l.usd <= Entry(book, id).value.usd
  }

  /** A claimed run: the limits it was verified with, its rates, and its ledger. */
  datatype Claim = Claim(limits: Limits, rates: Rates, account: Account)

  type Claims = map<string, Claim>

  datatype CampaignEvent = ClaimsRun(id: string, limits: Limits, rates: Rates) | InRun(id: string, event: Event)

  /** Claiming makes a directory and fails if it exists, so each allocation is claimed once, ever. */
  function CampaignNext(book: seq<Allocation>, b: Balance, claims: Claims, e: CampaignEvent): Claims {
    match e
    case ClaimsRun(id, l, r) =>
      if Verifies(book, b, id, l) && id !in claims then claims[id := Claim(l, r, Account([], None))] else claims
    case InRun(id, event) =>
      if id in claims && Enabled(claims[id].account, event) then
        claims[id := claims[id].(account := Next(claims[id].account, claims[id].limits, claims[id].rates, event))]
      else claims
  }

  /** What a run finally counts for, when no reservation of its own was overrun. */
  function ClaimTokens(claims: Claims, id: string): int {
    if id in claims then Tokens(Tidy(claims[id].account.calls)) else 0
  }

  function ClaimUsd(claims: Claims, id: string): real {
    if id in claims then Cost(claims[id].rates, Tidy(claims[id].account.calls)) else 0.0
  }

  function ClaimCalls(claims: Claims, id: string): int {
    if id in claims then |claims[id].account.calls| else 0
  }

  /** Totals over the book's entries, skipping runs a provider overran. */
  predicate Honest(claims: Claims, id: string) {
    id in claims && forall i :: 0 <= i < |claims[id].account.calls| ==> !Overrun(claims[id].account.calls[i])
  }

  function TotalTokens(book: seq<Allocation>, claims: Claims): int {
    if book == [] then 0
    else
      var id := book[|book|-1].id;
      TotalTokens(book[..|book|-1], claims) + (if Honest(claims, id) then ClaimTokens(claims, id) else 0)
  }

  function TotalUsd(book: seq<Allocation>, claims: Claims): real {
    if book == [] then 0.0
    else
      var id := book[|book|-1].id;
      TotalUsd(book[..|book|-1], claims) + (if Honest(claims, id) then ClaimUsd(claims, id) else 0.0)
  }

  function TotalCalls(book: seq<Allocation>, claims: Claims): int {
    if book == [] then 0
    else TotalCalls(book[..|book|-1], claims) + ClaimCalls(claims, book[|book|-1].id)
  }

  ghost predicate ClaimOk(book: seq<Allocation>, id: string, c: Claim) {
    && Charging(c.rates) && Solvent(c.account, c.limits, c.rates) && Entry(book, id).Some?
    && c.limits.calls <= Entry(book, id).value.calls && c.limits.tokens <= Entry(book, id).value.tokens
    && c.limits.usd <= Entry(book, id).value.usd
  }

  ghost predicate ClaimsOk(book: seq<Allocation>, claims: Claims) {
    forall id :: id in claims ==> ClaimOk(book, id, claims[id])
  }

  /** The plan's own limits are those a run accepts: nothing negative. */
  predicate Sane(e: CampaignEvent) {
    e.ClaimsRun? ==> Charging(e.rates) && 0 <= e.limits.tokens && 0.0 <= e.limits.usd
  }

  lemma CampaignKeepsClaims(book: seq<Allocation>, b: Balance, claims: Claims, e: CampaignEvent)
    requires ClaimsOk(book, claims) && Sane(e)
    ensures ClaimsOk(book, CampaignNext(book, b, claims, e))
  {
    hide Solvent, Next, Entry, Enabled, SumCalls, SumTokens, SumUsd;
    match e
    case ClaimsRun(id, l, r) => StartSolvent(l, r);
    case InRun(id, event) =>
      if id in claims && Enabled(claims[id].account, event) {
        assert ClaimOk(book, id, claims[id]);
        NextKeepsSolvent(claims[id].account, claims[id].limits, claims[id].rates, event);
      }
  }

  ghost predicate DistinctIds(book: seq<Allocation>) {
    forall i, j :: 0 <= i < j < |book| ==> book[i].id != book[j].id
  }

  lemma {:induction false} EntryIs(book: seq<Allocation>, i: nat)
    requires DistinctIds(book) && i < |book|
    ensures Entry(book, book[i].id) == Some(book[i])
  {
    if i < |book| - 1 {
      assert book[i].id != book[|book|-1].id;
      EntryIs(book[..|book|-1], i);
    }
  }

  lemma {:induction false} EntryIsListed(book: seq<Allocation>, id: string)
    ensures Entry(book, id).Some? ==> Entry(book, id).value in book && Entry(book, id).value.id == id
  {
    if book != [] { EntryIsListed(book[..|book|-1], id); }
  }

  /** The plan asks for no more than an entry of the book under this name gives. */
  ghost predicate Covered(book: seq<Allocation>, id: string, l: Limits) {
    exists i :: 0 <= i < |book| && book[i].id == id &&
                l.calls <= book[i].calls && l.tokens <= book[i].tokens && l.usd <= book[i].usd
  }

  /**
   * A run is claimed exactly if its name is not claimed yet, every entry is positive, the entries together fit the
   * balance, and its plan is covered by its own entry; it begins with an empty ledger, and no other claim changes.
   */
  lemma ClaimExactly(book: seq<Allocation>, b: Balance, claims: Claims, id: string, l: Limits, r: Rates)
    requires DistinctIds(book)
    ensures CampaignNext(book, b, claims, ClaimsRun(id, l, r)) ==
            if id !in claims
               && (forall i :: 0 <= i < |book| ==> 0 < book[i].calls && 0 < book[i].tokens && 0.0 < book[i].usd)
               && SumCalls(book) <= b.calls && SumTokens(book) <= b.tokens && SumUsd(book) <= b.usd
               && Covered(book, id, l)
            then claims[id := Claim(l, r, Account([], None))] else claims
  {
    CoveredIs(book, id, l);
    hide Entry, SumCalls, SumTokens, SumUsd, Covered, DistinctIds;
    assert (forall i :: 0 <= i < |book| ==> Positive(book[i])) <==>
           forall i :: 0 <= i < |book| ==> 0 < book[i].calls && 0 < book[i].tokens && 0.0 < book[i].usd;
  }

  lemma CoveredIs(book: seq<Allocation>, id: string, l: Limits)
    requires DistinctIds(book)
    ensures Covered(book, id, l) <==>
            && Entry(book, id).Some? && l.calls <= Entry(book, id).value.calls
            && l.tokens <= Entry(book, id).value.tokens && l.usd <= Entry(book, id).value.usd
  {
    EntryIsListed(book, id);
    if i :| 0 <= i < |book| && book[i].id == id { EntryIs(book, i); }
    hide Entry;
  }

  /** Runs that stay within their own entries stay, together, within the sum of the entries. */
  lemma {:induction false} TotalsWithinBook(book: seq<Allocation>, n: nat, claims: Claims)
    requires DistinctIds(book) && ClaimsOk(book, claims) && n <= |book|
    requires forall i :: 0 <= i < |book| ==> Positive(book[i])
    ensures TotalTokens(book[..n], claims) <= SumTokens(book[..n])
    ensures TotalUsd(book[..n], claims) <= SumUsd(book[..n])
    ensures TotalCalls(book[..n], claims) <= SumCalls(book[..n])
  {
    if n > 0 {
      TotalsWithinBook(book, n - 1, claims);
      assert book[..n][..n-1] == book[..n-1] && book[..n][n-1] == book[n-1];
      EntryIs(book, n - 1);
      var id := book[n-1].id;
      hide TotalTokens, TotalUsd, TotalCalls, SumTokens, SumUsd, SumCalls, Tidy, Tokens, Cost, Entry, Overrun;
      assert id in claims ==> ClaimOk(book, id, claims[id]);
      ShareOfEntry(book, claims, id, book[n-1]);
      TotalsStep(book[..n], claims);
    }
  }

  lemma ShareOfEntry(book: seq<Allocation>, claims: Claims, id: string, entry: Allocation)
    requires ClaimsOk(book, claims) && Entry(book, id) == Some(entry) && Positive(entry)
    ensures Honest(claims, id) ==> ClaimTokens(claims, id) <= entry.tokens && ClaimUsd(claims, id) <= entry.usd
    ensures ClaimCalls(claims, id) <= entry.calls
  {
    hide Entry, Tidy, Tokens, Cost, Overrun;
    if id in claims {
      assert ClaimOk(book, id, claims[id]);
      if Honest(claims, id) { assert NoOverrun(claims[id].account.calls); }
    }
  }

  lemma TotalsStep(book: seq<Allocation>, claims: Claims)
    requires book != []
    ensures var init, last := book[..|book|-1], book[|book|-1];
            && TotalTokens(book, claims) ==
                 TotalTokens(init, claims) + (if Honest(claims, last.id) then ClaimTokens(claims, last.id) else 0)
            && TotalUsd(book, claims) ==
                 TotalUsd(init, claims) + (if Honest(claims, last.id) then ClaimUsd(claims, last.id) else 0.0)
            && TotalCalls(book, claims) == TotalCalls(init, claims) + ClaimCalls(claims, last.id)
            && SumTokens(book) == SumTokens(init) + last.tokens && SumUsd(book) == SumUsd(init) + last.usd
            && SumCalls(book) == SumCalls(init) + last.calls
  {
    hide Honest, ClaimTokens, ClaimUsd, ClaimCalls;
  }

  ghost predicate CampaignStep(book: seq<Allocation>, b: Balance, run: seq<Claims>, events: seq<CampaignEvent>, i: nat)
    requires i < |events| && |run| == |events| + 1
  {
    Sane(events[i]) && run[i+1] == CampaignNext(book, b, run[i], events[i])
  }

  ghost predicate Campaign(book: seq<Allocation>, b: Balance, run: seq<Claims>, events: seq<CampaignEvent>) {
    && DistinctIds(book) && |run| == |events| + 1 && run[0] == map[]
    && forall i :: 0 <= i < |events| ==> CampaignStep(book, b, run, events, i)
  }

  lemma {:induction false} CampaignFacts(book: seq<Allocation>, b: Balance, run: seq<Claims>,
                                         events: seq<CampaignEvent>, i: nat)
    requires Campaign(book, b, run, events) && i < |run|
    ensures ClaimsOk(book, run[i])
    ensures run[i] != map[] ==> (forall k :: 0 <= k < |book| ==> Positive(book[k])) && SumCalls(book) <= b.calls &&
                                SumTokens(book) <= b.tokens && SumUsd(book) <= b.usd
  {
    hide ClaimOk, Next, Enabled, SumCalls, SumTokens, SumUsd, Entry;
    if i > 0 {
      CampaignFacts(book, b, run, events, i - 1);
      assert CampaignStep(book, b, run, events, i - 1);
      CampaignKeepsClaims(book, b, run[i - 1], events[i - 1]);
    }
  }

  /**
   * However many runs are started and however their calls interleave, the total charge of the runs no
   * provider overran stays within the remaining balance, in calls, tokens and cost.
   */
  lemma CampaignWithinBalance(book: seq<Allocation>, b: Balance, run: seq<Claims>, events: seq<CampaignEvent>, i: nat)
    requires Campaign(book, b, run, events) && i < |run| && run[i] != map[]
    ensures TotalTokens(book, run[i]) <= b.tokens && TotalUsd(book, run[i]) <= b.usd
            && TotalCalls(book, run[i]) <= b.calls
  {
    CampaignFacts(book, b, run, events, i);
    TotalsWithinBook(book, |book|, run[i]);
    assert book[..|book|] == book;
  }
}
