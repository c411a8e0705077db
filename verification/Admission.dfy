/** Slot-transfer admission and the retry loop (packages/typescript/src/provider.ts). */
module Admission {
  import opened Wrappers
  import opened Sequences

  /** One `complete` call; every call is a new one. */
  datatype Op = Op(number: nat)

  /** Slots in use, callers in line, and, as bookkeeping, what became of each caller. */
  datatype State = State(inFlight: nat, waiters: seq<Op>, holders: set<Op>, timedOut: set<Op>, seen: set<Op>)

  datatype Event = Arrives(op: Op, late: bool) | Expires(op: Op) | Finishes(op: Op)

  datatype Admitted = Granted | Queued | Rejected

  // ---------------------------------------------------------------- the transitions

  function Acquire(s: State, cap: nat, op: Op, late: bool): (State, Admitted) {
    if late then (s.(timedOut := s.timedOut + {op}, seen := s.seen + {op}), Rejected)
    else if s.inFlight < cap then
      (s.(inFlight := s.inFlight + 1, holders := s.holders + {op}, seen := s.seen + {op}), Granted)
    else (s.(waiters := s.waiters + [op], seen := s.seen + {op}), Queued)
  }

  /** JavaScript's `indexOf`, with the length for an absent element. */
  function IndexOf(waiters: seq<Op>, op: Op): (i: nat)
    ensures i <= |waiters| && op !in waiters[..i] && (i < |waiters| ==> waiters[i] == op)
  {
    if waiters == [] || waiters[0] == op then 0
    else
      var i := 1 + IndexOf(waiters[1..], op);
      assert waiters[..i] == [waiters[0]] + waiters[1..][..i-1];
      i
  }

  function WithoutOp(waiters: seq<Op>, op: Op): seq<Op> {
    var i := IndexOf(waiters, op);
    if i < |waiters| then waiters[..i] + waiters[i+1..] else waiters
  }

  /** The timer of a caller still in line. */
  function Expire(s: State, op: Op): State {
    s.(waiters := WithoutOp(s.waiters, op), timedOut := s.timedOut + {op})
  }

  /** A slot is handed to the first in line, or given back. */
  function Release(s: State, op: Op): State {
    if s.waiters != [] then s.(waiters := s.waiters[1..], holders := s.holders - {op} + {s.waiters[0]})
    else s.(inFlight := if s.inFlight > 0 then s.inFlight - 1 else 0, holders := s.holders - {op})
  }

  /** Callers are new; a granted caller's timer has been cleared; only holders release. */
  predicate Enabled(s: State, e: Event) {
    match e
    case Arrives(op, _) => op !in s.seen
    case Expires(op) => op in s.waiters
    case Finishes(op) => op in s.holders
  }

  function Next(s: State, cap: nat, e: Event): State {
    match e
    case Arrives(op, late) => Acquire(s, cap, op, late).0
    case Expires(op) => Expire(s, op)
    case Finishes(op) => Release(s, op)
  }

  // ---------------------------------------------------------------- the invariant

  ghost predicate Inv(s: State, cap: nat) {
    && s.inFlight == |s.holders| <= cap
    && (s.waiters != [] ==> s.inFlight == cap)
    && NoDup(s.waiters) && Apart(s)
  }

  /** Holding, waiting and having timed out exclude each other. */
  ghost predicate Apart(s: State) {
    && s.holders <= s.seen && s.timedOut <= s.seen && s.holders !! s.timedOut
    && forall op :: op in s.waiters ==> op in s.seen && op !in s.holders && op !in s.timedOut
  }

  lemma WithoutOpFacts(waiters: seq<Op>, op: Op)
    requires NoDup(waiters)
    ensures NoDup(WithoutOp(waiters, op)) && forall x :: x in WithoutOp(waiters, op) <==> x in waiters && x != op
  {
    var i := IndexOf(waiters, op);
    var r := WithoutOp(waiters, op);
    if i < |waiters| {
      forall j | 0 <= j < |r| ensures r[j] == waiters[if j < i then j else j + 1] && r[j] != op {}
      forall x | x in waiters && x != op ensures x in r {
        var k :| 0 <= k < |waiters| && waiters[k] == x;
        assert r[if k < i then k else k - 1] == x;
      }
    } else {
      assert waiters[..i] == waiters;
    }
  }

  lemma ArriveKeepsInv(s: State, cap: nat, op: Op, late: bool)
    requires Inv(s, cap) && op !in s.seen
    ensures Inv(Acquire(s, cap, op, late).0, cap)
  {
    if !late && s.inFlight >= cap {
      forall i, j | 0 <= i < j < |s.waiters + [op]| ensures (s.waiters + [op])[i] != (s.waiters + [op])[j] {
        if j == |s.waiters| { assert s.waiters[i] in s.waiters; }
      }
    }
  }

  lemma ExpireKeepsInv(s: State, cap: nat, op: Op)
    requires Inv(s, cap) && op in s.waiters
    ensures Inv(Expire(s, op), cap)
  {
    WithoutOpFacts(s.waiters, op);
    hide NoDup, WithoutOp;
  }

  lemma FinishKeepsInv(s: State, cap: nat, op: Op)
    requires Inv(s, cap) && op in s.holders
    ensures Inv(Release(s, op), cap)
  {
    if s.waiters != [] {
      var next, rest := s.waiters[0], s.waiters[1..];
      assert s.waiters == [next] + rest;
      NoDupCons(next, rest);
      assert next in s.waiters;
      assert |s.holders - {op} + {next}| == |s.holders|;
    }
  }

  lemma NextKeepsInv(s: State, cap: nat, e: Event)
    requires Inv(s, cap) && Enabled(s, e)
    ensures Inv(Next(s, cap, e), cap)
  {
    hide Inv, Acquire, Expire, Release;
    match e
    case Arrives(op, late) => ArriveKeepsInv(s, cap, op, late);
    case Expires(op) => ExpireKeepsInv(s, cap, op);
    case Finishes(op) => FinishKeepsInv(s, cap, op);
  }

  ghost predicate StepAt(run: seq<State>, events: seq<Event>, cap: nat, i: nat)
    requires i < |events| && |run| == |events| + 1
  {
    Enabled(run[i], events[i]) && run[i+1] == Next(run[i], cap, events[i])
  }

  ghost predicate Run(run: seq<State>, events: seq<Event>, cap: nat) {
    && |run| == |events| + 1 && run[0] == State(0, [], {}, {}, {})
    && forall i :: 0 <= i < |events| ==> StepAt(run, events, cap, i)
  }

  /**
   * In every interleaving: slots in use are exactly the holders and never more than the cap, callers
   * wait only while every slot is taken, and nobody holds, waits and has timed out at once.
   */
  lemma {:induction false} RunKeepsInv(run: seq<State>, events: seq<Event>, cap: nat, i: nat)
    requires Run(run, events, cap) && i < |run|
    ensures Inv(run[i], cap)
  {
    if i > 0 {
      RunKeepsInv(run, events, cap, i - 1);
      assert StepAt(run, events, cap, i - 1);
      NextKeepsInv(run[i - 1], cap, events[i - 1]);
    }
  }

  /** No slot is lost: when nobody holds one, none is counted and nobody waits (with a positive cap). */
  lemma NoSlotLost(run: seq<State>, events: seq<Event>, cap: nat, i: nat)
    requires Run(run, events, cap) && i < |run| && 0 < cap && run[i].holders == {}
    ensures run[i].inFlight == 0 && run[i].waiters == []
  {
    RunKeepsInv(run, events, cap, i);
  }

  lemma {:induction false} TimedOutStays(run: seq<State>, events: seq<Event>, cap: nat, i: nat, j: nat, op: Op)
    requires Run(run, events, cap) && i <= j < |run| && op in run[i].timedOut
    ensures op in run[j].timedOut
    decreases j
  {
    if i < j {
      TimedOutStays(run, events, cap, i, j - 1, op);
      assert StepAt(run, events, cap, j - 1);
    }
  }

  /** A caller that timed out is never granted a slot afterwards. */
  lemma TimedOutIsNeverGranted(run: seq<State>, events: seq<Event>, cap: nat, i: nat, j: nat, op: Op)
    requires Run(run, events, cap) && i <= j < |run| && op in run[i].timedOut
    ensures op !in run[j].holders && op !in run[j].waiters
  {
    TimedOutStays(run, events, cap, i, j, op);
    RunKeepsInv(run, events, cap, j);
  }

  // ---------------------------------------------------------------- first come, first served

  ghost predicate Ahead(waiters: seq<Op>, a: Op, b: Op) {
    exists p, q :: 0 <= p < q < |waiters| && waiters[p] == a && waiters[q] == b
  }

  lemma AheadCons(head: Op, rest: seq<Op>, a: Op, b: Op)
    ensures Ahead([head] + rest, a, b) <==> (a == head && b in rest) || Ahead(rest, a, b)
  {
    var w := [head] + rest;
    if Ahead(w, a, b) {
      var p, q :| 0 <= p < q < |w| && w[p] == a && w[q] == b;
      if p > 0 { assert rest[p-1] == a && rest[q-1] == b; } else { assert rest[q-1] == b; }
    }
    if Ahead(rest, a, b) {
      var p, q :| 0 <= p < q < |rest| && rest[p] == a && rest[q] == b;
      assert w[p+1] == a && w[q+1] == b;
    }
    if a == head && b in rest {
      var q :| 0 <= q < |rest| && rest[q] == b;
      assert w[0] == a && w[q+1] == b;
    }
  }

  lemma AheadWithout(waiters: seq<Op>, op: Op, a: Op, b: Op)
    requires NoDup(waiters) && Ahead(waiters, a, b) && op != a && op != b
    ensures Ahead(WithoutOp(waiters, op), a, b)
  {
    var i, r := IndexOf(waiters, op), WithoutOp(waiters, op);
    var p, q :| 0 <= p < q < |waiters| && waiters[p] == a && waiters[q] == b;
    if i < |waiters| {
      assert r[if p < i then p else p - 1] == a && r[if q < i then q else q - 1] == b;
    }
  }

  /** `a` has left the line: granted, or timed out. */
  ghost predicate Past(s: State, a: Op) {
    a in s.seen && a !in s.waiters
  }

  lemma StepKeepsOrder(s: State, cap: nat, e: Event, a: Op, b: Op)
    requires Inv(s, cap) && Enabled(s, e) && Ahead(s.waiters, a, b)
    ensures var t := Next(s, cap, e); Past(t, a) || b in t.timedOut || Ahead(t.waiters, a, b)
  {
    assert a in s.waiters && b in s.waiters && a in s.seen;
    var t := Next(s, cap, e);
    match e
    case Arrives(op, late) =>
      if t.waiters == s.waiters + [op] {
        var p, q :| 0 <= p < q < |s.waiters| && s.waiters[p] == a && s.waiters[q] == b;
        assert t.waiters[p] == a && t.waiters[q] == b;
      }
    case Expires(op) =>
      WithoutOpFacts(s.waiters, op);
      if op != a && op != b { AheadWithout(s.waiters, op, a, b); }
    case Finishes(op) =>
      var next, rest := s.waiters[0], s.waiters[1..];
      assert s.waiters == [next] + rest;
      NoDupCons(next, rest);
      AheadCons(next, rest, a, b);
  }

  lemma PastStays(s: State, cap: nat, e: Event, a: Op)
    requires Inv(s, cap) && Enabled(s, e) && Past(s, a)
    ensures Past(Next(s, cap, e), a)
  {
    if e.Expires? { WithoutOpFacts(s.waiters, e.op); }
  }

  /**
   * First come, first served: a caller behind another in line is not granted a slot while the one ahead
   * still waits.  The one behind can leave earlier only by timing out.
   */
  lemma {:induction false} GrantsAreFifo(run: seq<State>, events: seq<Event>, cap: nat, i: nat, j: nat, a: Op, b: Op)
    requires Run(run, events, cap) && i <= j < |run| && Ahead(run[i].waiters, a, b)
    ensures Past(run[j], a) || b in run[j].timedOut || Ahead(run[j].waiters, a, b)
    ensures b in run[j].holders ==> a !in run[j].waiters
    decreases j
  {
    hide Inv, Next, Enabled, Ahead, Past;
    if i < j {
      GrantsAreFifo(run, events, cap, i, j - 1, a, b);
      RunKeepsInv(run, events, cap, j - 1);
      assert StepAt(run, events, cap, j - 1);
      var s, e := run[j - 1], events[j - 1];
      if Past(s, a) {
        PastStays(s, cap, e, a);
      } else if b in s.timedOut {
        TimedOutStays(run, events, cap, j - 1, j, b);
      } else {
        StepKeepsOrder(s, cap, e, a, b);
      }
    }
    RunKeepsInv(run, events, cap, j);
    HolderIsPast(run[j], cap, a, b);
  }

  lemma HolderIsPast(s: State, cap: nat, a: Op, b: Op)
    requires Inv(s, cap) && (Past(s, a) || b in s.timedOut || Ahead(s.waiters, a, b))
    ensures b in s.holders ==> a !in s.waiters
  {
    if Ahead(s.waiters, a, b) {
      assert b in s.waiters;
    }
  }

  // ---------------------------------------------------------------- the object and its retry loop

  /** The fields of the provider; `holders`, `timedOut` and `seen` say what its callers know. */
  class BoundedProvider {
    var inFlight: nat
    var waiters: seq<Op>
    ghost var holders: set<Op>
    ghost var timedOut: set<Op>
    ghost var seen: set<Op>
    const cap: nat

    ghost function Now(): State
      reads this
    {
      State(inFlight, waiters, holders, timedOut, seen)
    }

    ghost predicate Valid()
      reads this
    {
      Inv(Now(), cap)
    }

    constructor (perProviderConcurrency: nat)
      ensures Now() == State(0, [], {}, {}, {}) && cap == perProviderConcurrency && Valid()
    {
      inFlight, waiters, holders, timedOut, seen, cap := 0, [], {}, {}, {}, perProviderConcurrency;
    }

    /**
     * A new caller is turned away when it is late, granted a slot when one is free, and otherwise put at
     * the end of the line; nobody else's slot or place is touched, and the cap is kept.
     */
    method TryAcquire(op: Op, late: bool) returns (r: Admitted)
      modifies this
      ensures (Now(), r) == Acquire(old(Now()), cap, op, late)
      ensures old(Valid()) && op !in old(seen) ==> Valid() && inFlight == |holders| <= cap
      ensures op !in old(seen) && old(Valid()) ==>
                && (r == Granted <==> op in holders) && (r == Queued <==> op in waiters)
                   && (r == Rejected <==> op in timedOut)
      ensures holders - {op} == old(holders) - {op} && timedOut - {op} == old(timedOut) - {op}
              && old(waiters) <= waiters
      ensures (r == Rejected <==> late) && (r == Granted <==> !late && old(inFlight) < cap)
      ensures r == Queued ==> waiters == old(waiters) + [op]
    {
      ghost var before := Now();
      if Inv(before, cap) && op !in seen { ArriveKeepsInv(before, cap, op, late); }
      seen := seen + {op};
      if late {
        timedOut := timedOut + {op};
        return Rejected;
      }
      if inFlight < cap {
        inFlight, holders := inFlight + 1, holders + {op};
        return Granted;
      }
      waiters := waiters + [op];
      return Queued;
    }

    /** The timer finds its caller in line and takes it out. */
    method TimeOut(op: Op)
      modifies this
      ensures Now() == Expire(old(Now()), op)
      ensures old(Valid()) && op in old(waiters) ==> Valid() && op !in waiters && op !in holders
      ensures inFlight == old(inFlight) && holders == old(holders)
    {
      if Inv(Now(), cap) && op in waiters {
        ExpireKeepsInv(Now(), cap, op);
        WithoutOpFacts(waiters, op);
      }
      var position := 0;
      while position < |waiters| && waiters[position] != op
        invariant position <= |waiters| && op !in waiters[..position]
      {
        position := position + 1;
      }
      PositionIs(waiters, op, position);
      if position < |waiters| {
        waiters := waiters[..position] + waiters[position+1..];
      }
      timedOut := timedOut + {op};
    }

    /**
     * A holder's slot goes straight to the caller that has waited longest, so that the count does not
     * change; only with nobody waiting is it given back.
     */
    method GiveBack(op: Op)
      requires inFlight > 0
      modifies this
      ensures Now() == Release(old(Now()), op)
      ensures old(Valid()) && op in old(holders) ==> Valid() && op !in holders
      ensures old(waiters) != [] ==>
                old(waiters)[0] in holders && waiters == old(waiters)[1..] && inFlight == old(inFlight)
      ensures old(waiters) == [] ==> waiters == [] && inFlight == old(inFlight) - 1 && holders == old(holders) - {op}
    {
      ghost var before := Now();
      if Inv(before, cap) && op in holders {
        FinishKeepsInv(before, cap, op);
        assert waiters != [] ==> waiters[0] in waiters;
      }
      holders := holders - {op};
      if |waiters| > 0 {
        var next := waiters[0];
        waiters, holders := waiters[1..], holders + {next};
      } else {
        inFlight := inFlight - 1;
      }
    }
  }

  lemma {:induction false} PositionIs(waiters: seq<Op>, op: Op, position: nat)
    requires position <= |waiters| && op !in waiters[..position] && (position < |waiters| ==> waiters[position] == op)
    ensures IndexOf(waiters, op) == position
    decreases position
  {
    if position > 0 {
      assert waiters[0] in waiters[..position];
      assert waiters[1..][..position-1] == waiters[..position][1..];
      PositionIs(waiters[1..], op, position - 1);
    }
  }

  datatype Attempt = Success | TimedOut | Broken

  datatype Final = Done | DeadlinePassed | LastTimeout | Failure | OutOfBudget

  /** What the loop may rely on the world for: the clock before each attempt, and how each attempt ends. */
  datatype World = World(late: nat -> bool, attempt: nat -> Attempt)

  function Most(a: nat, b: nat): nat {
    if a < b then b else a
  }

  ghost predicate OnlyTimeouts(w: World, n: nat) {
    forall k :: 0 <= k < n ==> w.attempt(k) == TimedOut
  }

  /**
   * The retry loop under a shared call budget.  Only timeouts are retried; every physical attempt is
   * admitted first; at most `most` attempts are made (one, when none is allowed), and the budget's
   * count of calls never exceeds its limit.
   */
  method CompleteWithRetries(w: World, most: nat, calls: nat, limit: nat) returns (r: Final, made: nat, calls2: nat)
    requires calls <= limit
    ensures made <= Most(1, most) && calls2 == calls + made <= limit
    ensures r == Done <==> made > 0 && w.attempt(made - 1) == Success
    ensures made > 0 ==> OnlyTimeouts(w, made - 1)
    ensures r == Failure ==> made > 0 && w.attempt(made - 1) == Broken
    ensures r == LastTimeout ==> made > 0 && OnlyTimeouts(w, made) && (made == Most(1, most) || w.late(made))
    ensures r == OutOfBudget ==> OnlyTimeouts(w, made) && calls2 == limit
    ensures r == DeadlinePassed <==> w.late(0)
    ensures r == OutOfBudget ==> !w.late(made)
    ensures r == DeadlinePassed ==> made == 0
  {
    made, calls2 := 0, calls;
    while true
      invariant calls2 == calls + made <= limit && OnlyTimeouts(w, made)
      invariant (made == 0 || made < most) && (made > 0 ==> !w.late(0))
      decreases Most(1, most) - made
    {
      if w.late(made) {
        return if made == 0 then DeadlinePassed else LastTimeout, made, calls2;
      }
      if calls2 >= limit {
        return OutOfBudget, made, calls2;
      }
      calls2 := calls2 + 1;
      var outcome := w.attempt(made);
      made := made + 1;
      if outcome == Success {
        return Done, made, calls2;
      }
      if outcome != TimedOut {
        return Failure, made, calls2;
      }
      if made >= most {
        return LastTimeout, made, calls2;
      }
    }
  }
}
