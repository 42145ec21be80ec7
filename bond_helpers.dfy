/** The scheduled control-variable adjustment
    (contracts/bond/src/helpers.rs). The coin check of the same file is
    `Cosmos.DepositOneCoin`. */
module BondHelpers {
  import opened Cosmos
  import opened FixedPoint
  import opened BondState

  /** Whether `adjust` acts at time `now`: a live rate, and strictly after
      the buffer that follows the last adjustment. */
  predicate CanAdjust(adj: Adjustment, now: nat)
  {
    adj.rate != 0 && now > adj.lastTime + adj.buffer
  }

  /** `adjust` as written: moves the control variable one `rate` towards
      `target` and stops the schedule once the target is reached. It never
      touches `last_time`. */
  function AdjustStep(terms: Terms, adj: Adjustment, now: nat): (r: (Terms, Adjustment))
    ensures !CanAdjust(adj, now) ==> r == (terms, adj)
    ensures r.0 == terms.(controlVariable := r.0.controlVariable)
    ensures r.1 == adj.(rate := r.1.rate)
    ensures CanAdjust(adj, now) && adj.add ==>
              r.0.controlVariable == terms.controlVariable + adj.rate
              && (r.1.rate == 0 <==> r.0.controlVariable >= adj.target)
    ensures CanAdjust(adj, now) && !adj.add ==>
              r.0.controlVariable == (if terms.controlVariable >= adj.rate
                                      then terms.controlVariable - adj.rate else 0)
              && (r.1.rate == 0 <==> r.0.controlVariable <= adj.target)
    ensures r.1.rate == adj.rate || r.1.rate == 0
  {
    if !CanAdjust(adj, now) then (terms, adj)
    else if adj.add then
      var cv := terms.controlVariable + adj.rate;
      (terms.(controlVariable := cv), if cv >= adj.target then adj.(rate := 0) else adj)
    else
      var cv := if terms.controlVariable >= adj.rate then terms.controlVariable - adj.rate else 0;
      (terms.(controlVariable := cv), if cv <= adj.target then adj.(rate := 0) else adj)
  }

  /** The state after `adjust` runs at each of the given times in turn. */
  function AdjustRun(terms: Terms, adj: Adjustment, times: seq<nat>): (Terms, Adjustment)
    decreases |times|
  {
    if times == [] then (terms, adj)
    else
      var next := AdjustStep(terms, adj, times[0]);
      AdjustRun(next.0, next.1, times[1..])
  }

  /** A finished schedule stays finished: once the rate is zero, every later
      `adjust` leaves terms and schedule alone. */
  lemma {:induction false} StoppedScheduleIsInert(terms: Terms, adj: Adjustment, times: seq<nat>)
    requires adj.rate == 0
    ensures AdjustRun(terms, adj, times) == (terms, adj)
    decreases |times|
  {
    if times != [] {
      StoppedScheduleIsInert(terms, adj, times[1..]);
    }
  }

  /** In the add direction the control variable never decreases, whatever
      the times at which `adjust` runs. */
  lemma {:induction false} AddScheduleOnlyRaises(terms: Terms, adj: Adjustment, times: seq<nat>)
    requires adj.add
    ensures AdjustRun(terms, adj, times).0.controlVariable >= terms.controlVariable
    ensures AdjustRun(terms, adj, times).1.add
    decreases |times|
  {
    if times != [] {
      var next := AdjustStep(terms, adj, times[0]);
      AddScheduleOnlyRaises(next.0, next.1, times[1..]);
    }
  }

  /** In the subtract direction the control variable never increases,
      whatever the times at which `adjust` runs. */
  lemma {:induction false} SubtractScheduleOnlyLowers(terms: Terms, adj: Adjustment, times: seq<nat>)
    requires !adj.add
    ensures AdjustRun(terms, adj, times).0.controlVariable <= terms.controlVariable
    ensures !AdjustRun(terms, adj, times).1.add
    decreases |times|
  {
    if times != [] {
      var next := AdjustStep(terms, adj, times[0]);
      SubtractScheduleOnlyLowers(next.0, next.1, times[1..]);
    }
  }

  /** Because `last_time` is never advanced, the buffer only delays the first
      adjustment: two calls in the same block both move the control
      variable. */
  lemma AdjustTwiceInOneBlock()
    ensures var terms := Terms(0, 0, 0, 0, 1);
            var adj := Adjustment(true, 1, 10, 0, 0);
            var once := AdjustStep(terms, adj, 5);
            var twice := AdjustStep(once.0, once.1, 5);
            twice.0.controlVariable == 2
  {
  }

  /** `adjust` with the schedule clock advanced to `now` whenever it acts, as
      the buffer between adjustments evidently intends. */
  function AdjustStepCorrected(terms: Terms, adj: Adjustment, now: nat): (r: (Terms, Adjustment))
    ensures !CanAdjust(adj, now) ==> r == (terms, adj)
    ensures CanAdjust(adj, now) ==> r.1.lastTime == now
    ensures r.0 == AdjustStep(terms, adj, now).0
    ensures r.1.rate == AdjustStep(terms, adj, now).1.rate
  {
    var r := AdjustStep(terms, adj, now);
    if CanAdjust(adj, now) then (r.0, r.1.(lastTime := now)) else r
  }

  /** With the clock advanced, once an adjustment happens no other one can
      happen until the buffer has passed again: at most one per window. */
  lemma {:induction false} CorrectedAdjustOncePerWindow(terms: Terms, adj: Adjustment, now: nat, later: nat)
    requires CanAdjust(adj, now)
    requires now <= later <= now + adj.buffer
    ensures var once := AdjustStepCorrected(terms, adj, now);
            AdjustStepCorrected(once.0, once.1, later) == once
  {
    var once := AdjustStepCorrected(terms, adj, now);
    assert once.1.lastTime == now && once.1.buffer == adj.buffer;
    assert !CanAdjust(once.1, later);
  }
}
