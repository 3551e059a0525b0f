/**
 One connection's inbound budget: a token bucket that carries the nanoseconds which have not yet
 bought a whole byte (crates/selvaged/src/budget.rs).
 */
module Budget {
  import opened Arithmetic

  const NANOS_PER_SEC: nat := 1_000_000_000
  const FRAME_COST_BYTES: nat := 1024
  const U64_MAX: nat := 0xffff_ffff_ffff_ffff
  const U128_MAX: nat := 0xffff_ffff_ffff_ffff_ffff_ffff_ffff_ffff

  newtype U64 = x: int | 0 <= x <= 0xffff_ffff_ffff_ffff

  newtype U128 = x: int | 0 <= x <= 0xffff_ffff_ffff_ffff_ffff_ffff_ffff_ffff

  /** The bucket; instants are nanoseconds on a clock of unbounded width. */
  datatype Bucket = Bucket(tokens: nat, capacity: nat, rate: nat, last: nat, carry: nat)

  function Min(x: nat, y: nat): nat {
    if x < y then x else y
  }

  function Elapsed(b: Bucket, now: nat): nat {
    if b.last <= now then now - b.last else 0
  }

  /** The time a refill measures: what has passed and what was carried, as 64 bits hold it. */
  function Measured(b: Bucket, now: nat): nat {
    Min(Min(Elapsed(b, now), U64_MAX) + b.carry, U64_MAX)
  }

  function Bought(b: Bucket, now: nat): nat {
    Measured(b, now) * b.rate / NANOS_PER_SEC
  }

  /** The time those bytes cost, rounded down. */
  function Spent(b: Bucket, now: nat): nat
    requires b.rate > 0
  {
    Bought(b, now) * NANOS_PER_SEC / b.rate
  }

  function Refilled(b: Bucket, now: nat): Bucket {
    if b.rate == 0 then b.(last := now)
    else
      var tokens := Min(b.tokens + Bought(b, now), b.capacity);
      SpentFitsMeasured(b, now);
      b.(last := now, tokens := tokens, carry := if b.capacity <= tokens then 0 else Measured(b, now) - Spent(b, now))
  }

  function Cost(payload: nat): nat {
    if payload < FRAME_COST_BYTES then FRAME_COST_BYTES else payload
  }

  function Charged(b: Bucket, payload: nat, now: nat): (Bucket, bool) {
    var r := Refilled(b, now);
    if r.tokens < Cost(payload) then (r, false) else (r.(tokens := r.tokens - Cost(payload)), true)
  }

  predicate Sound(b: Bucket) {
    b.tokens <= b.capacity <= U64_MAX && b.rate <= U64_MAX && b.carry <= U64_MAX
  }

  // --- one refill ------------------------------------------------------------------------------

  lemma DivideDown(x: nat, d: nat)
    requires d > 0
    ensures x / d * d <= x < x / d * d + d && x % d == x - x / d * d
  {
  }

  lemma TimesOrdered(x: nat, y: nat, k: nat)
    requires x * k <= y * k && k > 0
    ensures x <= y
  {
    assert (y + 1) * k == y * k + k;
    if y < x {
      Times(y + 1, x, k);
    }
  }

  /** What is bought is worth no more than the time measured, and costs no more of it. */
  lemma SpentFitsMeasured(b: Bucket, now: nat)
    requires b.rate > 0
    ensures Bought(b, now) * NANOS_PER_SEC <= Measured(b, now) * b.rate
    ensures Spent(b, now) * b.rate <= Bought(b, now) * NANOS_PER_SEC < Spent(b, now) * b.rate + b.rate
    ensures Spent(b, now) <= Measured(b, now)
  {
    DivideDown(Measured(b, now) * b.rate, NANOS_PER_SEC);
    DivideDown(Bought(b, now) * NANOS_PER_SEC, b.rate);
    TimesOrdered(Spent(b, now), Measured(b, now), b.rate);
  }

  /** What the bucket is worth, in nanobytes: its tokens, and the time it carries. */
  function Worth(b: Bucket): nat {
    b.tokens * NANOS_PER_SEC + b.carry * b.rate
  }

  /** The rounding a refill may give away: just under one nanosecond's credit. */
  function Slack(rate: nat): nat {
    if rate == 0 then 0 else rate - 1
  }

  /** What a refill overpays: the part of a nanosecond its rounded-down cost leaves uncharged. */
  function Overpaid(b: Bucket, now: nat): nat {
    if b.rate == 0 then 0 else Bought(b, now) * NANOS_PER_SEC % b.rate
  }

  /**
   The exact law of one refill: below the brim it credits the time measured and the remainder of
   its division, no more and no less; at the brim it credits less.
   */
  lemma RefillIsExact(b: Bucket, now: nat)
    requires Sound(b)
    ensures var r := Refilled(b, now);
            var credited := Worth(b) + b.rate * (Measured(b, now) - b.carry) + Overpaid(b, now);
            && Sound(r) && r.rate == b.rate && r.capacity == b.capacity && r.last == now
            && b.carry <= Measured(b, now) <= b.carry + Elapsed(b, now) && Overpaid(b, now) <= Slack(b.rate)
            && Worth(r) <= credited
            && (r.tokens < r.capacity || b.rate == 0 ==> Worth(r) == credited)
  {
    var r := Refilled(b, now);
    if b.rate == 0 {
      assert b.rate * (Measured(b, now) - b.carry) == 0;
    } else {
      SpentFitsMeasured(b, now);
      RefillBalances(b.tokens, b.capacity, b.rate, b.carry,
                     Measured(b, now), Bought(b, now), Spent(b, now), r.tokens, r.carry);
    }
  }

  lemma RefillBalances(tokens: nat, capacity: nat, rate: nat, carry: nat,
                       measured: nat, bought: nat, spent: nat, tokens': nat, carry': nat)
    requires 0 < rate && carry <= measured && spent <= measured && spent == bought * NANOS_PER_SEC / rate
    requires tokens' == Min(tokens + bought, capacity)
    requires carry' == if capacity <= tokens' then 0 else measured - spent
    ensures var credited := tokens * NANOS_PER_SEC + carry * rate + rate * (measured - carry) + bought * NANOS_PER_SEC % rate;
            var left := tokens' * NANOS_PER_SEC + carry' * rate;
            left <= credited && (tokens' < capacity ==> left == credited)
  {
    DivideDown(bought * NANOS_PER_SEC, rate);
    assert (measured - spent) * rate == measured * rate - spent * rate;
    assert rate * (measured - carry) == measured * rate - carry * rate;
    Times(0, measured - spent, rate);
  }

  /** The rounding is used exactly by the refills whose division leaves a remainder. */
  lemma TheSlackIsUsedExactly(b: Bucket, now: nat)
    requires Sound(b) && Refilled(b, now).tokens < b.capacity
    ensures Worth(b) + b.rate * (Measured(b, now) - b.carry) < Worth(Refilled(b, now)) <==> Overpaid(b, now) != 0
  {
    RefillIsExact(b, now);
  }

  // --- runs of charges -----------------------------------------------------------------------

  datatype Charge = Charge(payload: nat, at: nat)

  function At(b: Bucket, log: seq<Charge>): Bucket {
    if log == [] then b
    else
      var last := log[|log| - 1];
      Charged(At(b, log[..|log| - 1]), last.payload, last.at).0
  }

  /** The cost of the frames let through. */
  function Granted(b: Bucket, log: seq<Charge>): nat {
    if log == [] then 0
    else
      var rest, last := log[..|log| - 1], log[|log| - 1];
      Granted(b, rest) + if Charged(At(b, rest), last.payload, last.at).1 then Cost(last.payload) else 0
  }

  /** The time the refills see pass; on a clock that never runs back, the run's length. */
  function Passed(b: Bucket, log: seq<Charge>): nat {
    if log == [] then 0
    else
      var rest, last := log[..|log| - 1], log[|log| - 1];
      Passed(b, rest) + Elapsed(At(b, rest), last.at)
  }

  /** Each refill of the run measured all the time there was, and left the bucket below its brim. */
  predicate NeverFull(b: Bucket, log: seq<Charge>) {
    log != [] ==>
      var rest, last := log[..|log| - 1], log[|log| - 1];
      var before := At(b, rest);
      && NeverFull(b, rest)
      && Elapsed(before, last.at) + before.carry <= U64_MAX
      && Refilled(before, last.at).tokens < before.capacity
  }

  lemma ChargingSpends(b: Bucket, c: Charge)
    requires Sound(b)
    ensures var (t, granted) := Charged(b, c.payload, c.at);
            && Sound(t) && t.rate == b.rate && t.capacity == b.capacity && t.last == c.at
            && Worth(t) + (if granted then Cost(c.payload) * NANOS_PER_SEC else 0) == Worth(Refilled(b, c.at))
  {
    RefillIsExact(b, c.at);
    var r := Refilled(b, c.at);
    if Cost(c.payload) <= r.tokens {
      assert (r.tokens - Cost(c.payload)) * NANOS_PER_SEC == r.tokens * NANOS_PER_SEC - Cost(c.payload) * NANOS_PER_SEC;
    }
  }

  /**
   The ceiling: over any run, what is let through is paid for by the bucket's worth at the start
   and the rate for the time that passed, but for the rounding of each refill.
   */
  lemma {:induction false} GrantedIsBounded(b: Bucket, log: seq<Charge>)
    requires Sound(b)
    ensures var t := At(b, log);
            && Sound(t) && t.rate == b.rate && t.capacity == b.capacity
            && Worth(t) + Granted(b, log) * NANOS_PER_SEC <= Worth(b) + b.rate * Passed(b, log) + |log| * Slack(b.rate)
    decreases |log|
  {
    hide Charged, Refilled, Worth, Elapsed, Slack, Overpaid, Measured, Sound;
    if log != [] {
      var rest, last := log[..|log| - 1], log[|log| - 1];
      GrantedIsBounded(b, rest);
      var before := At(b, rest);
      RefillIsExact(before, last.at);
      ChargingSpends(before, last);
      Times(Measured(before, last.at) - before.carry, Elapsed(before, last.at), b.rate);
      Distribute(b.rate, Passed(b, rest), Elapsed(before, last.at));
      Distribute(Slack(b.rate), |rest|, 1);
    }
  }

  /** A new connection's run: `granted * 10^9 <= capacity * 10^9 + rate * t + n * (rate - 1)`. */
  lemma AFreshBucketGrants(rate: nat, capacity: nat, start: nat, log: seq<Charge>)
    requires rate <= U64_MAX && capacity <= U64_MAX
    ensures var b := Bucket(capacity, capacity, rate, start, 0);
            && At(b, log).tokens <= capacity
            && Granted(b, log) * NANOS_PER_SEC <= capacity * NANOS_PER_SEC + rate * Passed(b, log) + |log| * Slack(rate)
  {
    GrantedIsBounded(Bucket(capacity, capacity, rate, start, 0), log);
  }

  function End(start: nat, log: seq<Charge>): nat {
    if log == [] then start else log[|log| - 1].at
  }

  predicate NeverRunsBack(start: nat, log: seq<Charge>) {
    log != [] ==>
      var rest, last := log[..|log| - 1], log[|log| - 1];
      NeverRunsBack(start, rest) && End(start, rest) <= last.at
  }

  /** On a clock that never runs back, the time that passed is the time from start to end. */
  lemma {:induction false} PassedIsTheClock(b: Bucket, log: seq<Charge>)
    requires Sound(b) && NeverRunsBack(b.last, log)
    ensures b.last <= End(b.last, log) && Passed(b, log) == End(b.last, log) - b.last
    ensures At(b, log).last == End(b.last, log)
    decreases |log|
  {
    hide Charged;
    if log != [] {
      var rest, last := log[..|log| - 1], log[|log| - 1];
      PassedIsTheClock(b, rest);
      GrantedIsBounded(b, rest);
      ChargingSpends(At(b, rest), last);
    }
  }

  /** The remainders of a run's refills. */
  function OverpaidBy(b: Bucket, log: seq<Charge>): nat {
    if log == [] then 0
    else
      var rest, last := log[..|log| - 1], log[|log| - 1];
      OverpaidBy(b, rest) + Overpaid(At(b, rest), last.at)
  }

  /**
   The exact ledger: while the bucket stays below its brim, what it is worth and has granted is
   what it began with, the rate for the time that passed, and the remainders of its refills.
   */
  lemma {:induction false} TheLedgerIsExact(b: Bucket, log: seq<Charge>)
    requires Sound(b) && NeverFull(b, log)
    ensures Worth(At(b, log)) + Granted(b, log) * NANOS_PER_SEC
         == Worth(b) + b.rate * Passed(b, log) + OverpaidBy(b, log)
    decreases |log|
  {
    hide Charged, Worth, Slack, Refilled;
    if log != [] {
      var rest, last := log[..|log| - 1], log[|log| - 1];
      TheLedgerIsExact(b, rest);
      GrantedIsBounded(b, rest);
      var before := At(b, rest);
      RefillIsExact(before, last.at);
      ChargingSpends(before, last);
      Distribute(b.rate, Passed(b, rest), Elapsed(before, last.at));
    }
  }

  /** The floor: below the brim no time is lost to rounding, however many refills it is spread over. */
  lemma NoTimeIsLost(b: Bucket, log: seq<Charge>)
    requires Sound(b) && NeverFull(b, log)
    ensures Worth(b) + b.rate * Passed(b, log) <= Worth(At(b, log)) + Granted(b, log) * NANOS_PER_SEC
  {
    TheLedgerIsExact(b, log);
  }

  /** At three bytes a second the first byte leaves a remainder, and the bound without its slack fails. */
  lemma TheSlackIsNeeded()
    ensures var b := Bucket(1023, 5000, 3, 0, 0);
            && Sound(b) && Overpaid(b, 333_333_334) == 1
            && Worth(b) + b.rate * Elapsed(b, 333_333_334) < Worth(Refilled(b, 333_333_334))
  {
    var b := Bucket(1023, 5000, 3, 0, 0);
    assert Measured(b, 333_333_334) == 333_333_334 && Bought(b, 333_333_334) == 1 && Spent(b, 333_333_334) == 333_333_333;
    assert Refilled(b, 333_333_334) == Bucket(1024, 5000, 3, 333_333_334, 1);
  }

  // --- the bucket in the words the server keeps it in -------------------------------------------

  class InboundBudget {
    var tokens: U64
    const capacity: U64
    const ratePerSec: U64
    var last: nat
    var carryNanos: U64

    ghost function View(): Bucket
      reads this
    {
      Bucket(tokens as nat, capacity as nat, ratePerSec as nat, last, carryNanos as nat)
    }

    ghost predicate Valid()
      reads this
    {
      tokens <= capacity
    }

    constructor (ratePerSec: U64, capacity: U64, start: nat)
      ensures Valid() && View() == Bucket(capacity as nat, capacity as nat, ratePerSec as nat, start, 0)
    {
      this.tokens, this.capacity, this.ratePerSec, this.last, this.carryNanos := capacity, capacity, ratePerSec, start, 0;
    }

    /** Charges one frame against the budget as it stands at `now`. */
    method TryTakeAt(payload: U64, now: nat) returns (granted: bool)
      requires Valid()
      modifies this
      ensures Valid()
      ensures (View(), granted) == Charged(old(View()), payload as nat, now)
    {
      hide Refilled;
      Refill(now);
      var cost := if payload < 1024 then 1024 else payload;
      if tokens < cost {
        return false;
      }
      tokens := tokens - cost;
      granted := true;
    }

    /** Earns the time since the last refill; every intermediate fits the words it is computed in. */
    method Refill(now: nat)
      requires Valid()
      modifies this
      ensures Valid()
      ensures View() == Refilled(old(View()), now)
    {
      ghost var before := View();
      var elapsed := if last <= now then now - last else 0;
      last := now;
      if ratePerSec == 0 {
        return;
      }
      var nanos: U64 := Saturated(Min(elapsed, U64_MAX) + carryNanos as nat);
      WordsMultiply(nanos as nat, ratePerSec as nat);
      var earned: U128 := nanos as U128 * ratePerSec as U128;
      var bought: U128 := earned / 1_000_000_000;
      assert bought as nat == Bought(before, now);
      SpentFitsMeasured(before, now);
      var spent: U128 := bought * 1_000_000_000 / ratePerSec as U128;
      assert spent as nat == Spent(before, now);
      carryNanos := (nanos as U128 - spent) as U64;
      var earnedBytes := Saturated(bought as nat);
      var full := Min(Saturated(tokens as nat + earnedBytes as nat) as nat, capacity as nat);
      tokens := full as U64;
      if capacity <= tokens {
        carryNanos := 0;
      }
    }
  }

  /** A saturating conversion into 64 bits. */
  function Saturated(x: nat): U64 {
    Min(x, U64_MAX) as U64
  }

  lemma WordsMultiply(x: nat, y: nat)
    requires x <= U64_MAX && y <= U64_MAX
    ensures x * y <= U128_MAX
  {
    Times(x, U64_MAX, y);
    Times(y, U64_MAX, U64_MAX);
  }
}
