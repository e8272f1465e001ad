/**
 One rate-limit account (internal/ratelimit/limiter.go): a credit balance that regenerates
 with time up to a ceiling and loses one per response. Times and credit are reals.
 */
module CreditAccount {
  import opened Wrappers

  /** lastRefill is None until the first charge. */
  datatype Account = Account(credit: real, lastRefill: Option<real>, slip: nat)

  const FRESH := Account(0.0, None, 0)

  /** The credit regenerated between two clock readings. */
  function Earned(from: real, to: real, rate: real): real {
    (to - from) * rate
  }

  lemma EarnedAdds(x: real, y: real, z: real, rate: real)
    ensures Earned(x, y, rate) + Earned(y, z, rate) == Earned(x, z, rate)
  {
  }

  lemma EarnedNothing(x: real, rate: real)
    ensures Earned(x, x, rate) == 0.0
  {
  }

  lemma EarnedForward(x: real, y: real, rate: real)
    requires x <= y && rate >= 0.0
    ensures Earned(x, y, rate) >= 0.0
  {
  }

  /** The balance before the debit, and the time it was brought up to. */
  function Refill(a: Account, now: real, rate: real, ceiling: real): Account {
    match a.lastRefill
    case None => a.(credit := ceiling, lastRefill := Some(now))
    case Some(last) =>
      if now - last > 0.0 then
        var credit := a.credit + Earned(last, now, rate);
        a.(credit := if credit > ceiling then ceiling else credit, lastRefill := Some(now))
      else a
  }

  function Charge(a: Account, now: real, rate: real, ceiling: real): (Account, bool) {
    var r := Refill(a, now, rate, ceiling);
    var credit := if r.credit - 1.0 < -ceiling then -ceiling else r.credit - 1.0;
    (r.(credit := credit), credit < 0.0)
  }

  predicate InRange(a: Account, ceiling: real) {
    a.lastRefill.Some? ==> -ceiling <= a.credit <= ceiling
  }

  /** The balance never leaves [-ceiling, ceiling], whatever the clock does. */
  lemma BalanceStaysInRange(a: Account, now: real, rate: real, ceiling: real)
    requires ceiling >= 0.0 && rate >= 0.0 && InRange(a, ceiling)
    ensures InRange(Charge(a, now, rate, ceiling).0, ceiling)
    ensures Charge(a, now, rate, ceiling).0.lastRefill.Some?
  {
    if a.lastRefill.Some? && now - a.lastRefill.value > 0.0 {
      EarnedForward(a.lastRefill.value, now, rate);
    }
  }

  // ----- runs

  /** The account after a run of charges at the given clock readings, in order. */
  function Run(nows: seq<real>, rate: real, ceiling: real): Account {
    if nows == [] then FRESH
    else Charge(Run(nows[..|nows| - 1], rate, ceiling), nows[|nows| - 1], rate, ceiling).0
  }

  /** Whether the last charge of the run was over the limit. */
  function OverAtEnd(nows: seq<real>, rate: real, ceiling: real): bool
    requires nows != []
  {
    Charge(Run(nows[..|nows| - 1], rate, ceiling), nows[|nows| - 1], rate, ceiling).1
  }

  /** How many charges of the run stayed within the limit. */
  function Within(nows: seq<real>, rate: real, ceiling: real): nat {
    if nows == [] then 0
    else Within(nows[..|nows| - 1], rate, ceiling) + if OverAtEnd(nows, rate, ceiling) then 0 else 1
  }

  /** The largest clock reading so far. */
  function Latest(nows: seq<real>): real
    requires nows != []
  {
    if |nows| == 1 then nows[0]
    else
      var before := Latest(nows[..|nows| - 1]);
      if nows[|nows| - 1] > before then nows[|nows| - 1] else before
  }

  lemma {:induction false} LatestIsLargest(nows: seq<real>) returns (at: nat)
    requires nows != []
    ensures at < |nows| && nows[at] == Latest(nows)
    ensures forall i :: 0 <= i < |nows| ==> nows[i] <= Latest(nows)
  {
    at := |nows| - 1;
    if |nows| > 1 {
      var front := nows[..|nows| - 1];
      var k := LatestIsLargest(front);
      at := if nows[|nows| - 1] > Latest(front) then |nows| - 1 else k;
      forall i | 0 <= i < |nows| ensures nows[i] <= Latest(nows) {
        assert i < |nows| - 1 ==> front[i] <= Latest(front);
      }
    }
  }

  /** The account is brought up to the largest reading, and never loses track of the first. */
  lemma {:induction false} RefilledToLatest(nows: seq<real>, rate: real, ceiling: real)
    requires nows != []
    ensures Run(nows, rate, ceiling).lastRefill == Some(Latest(nows))
    ensures nows[0] <= Latest(nows)
  {
    if |nows| > 1 {
      RefilledToLatest(nows[..|nows| - 1], rate, ceiling);
    }
  }

  function Allowance(nows: seq<real>, rate: real, ceiling: real): real
    requires nows != []
  {
    ceiling + Earned(nows[0], Latest(nows), rate)
  }

  lemma AllowanceGrows(nows: seq<real>, rate: real, ceiling: real)
    requires |nows| > 1 && rate >= 0.0
    ensures var front := nows[..|nows| - 1];
            && Allowance(front, rate, ceiling) + Earned(Latest(front), Latest(nows), rate) == Allowance(nows, rate, ceiling)
            && Earned(Latest(front), Latest(nows), rate) >= 0.0
  {
    var front := nows[..|nows| - 1];
    EarnedAdds(nows[0], Latest(front), Latest(nows), rate);
    EarnedForward(Latest(front), Latest(nows), rate);
    hide Earned;
  }

  /** One charge changes the balance by what was earned, and by no more than a debit. */
  lemma ChargeSpends(a: Account, now: real, rate: real, ceiling: real)
    requires ceiling > 0.0 && rate >= 0.0 && InRange(a, ceiling) && a.lastRefill.Some?
    ensures var (b, over) := Charge(a, now, rate, ceiling);
            var upTo := if now > a.lastRefill.value then now else a.lastRefill.value;
            && b.credit + (if over then 0.0 else 1.0) <= a.credit + Earned(a.lastRefill.value, upTo, rate)
            && (!over ==> b.credit >= 0.0)
  {
    EarnedNothing(a.lastRefill.value, rate);
    if now > a.lastRefill.value {
      EarnedForward(a.lastRefill.value, now, rate);
    }
    hide Earned;
  }

  /** Credit spent within the limit is covered by the starting credit and what regenerated. */
  lemma {:induction false} CreditConserved(nows: seq<real>, rate: real, ceiling: real)
    requires nows != [] && rate >= 0.0 && ceiling > 0.0
    ensures InRange(Run(nows, rate, ceiling), ceiling)
    ensures Within(nows, rate, ceiling) as real + Run(nows, rate, ceiling).credit <= Allowance(nows, rate, ceiling)
  {
    hide Earned;
    var front, now := nows[..|nows| - 1], nows[|nows| - 1];
    var before := Run(front, rate, ceiling);
    if front == [] {
      BalanceStaysInRange(FRESH, now, rate, ceiling);
      EarnedNothing(now, rate);
    } else {
      CreditConserved(front, rate, ceiling);
      BalanceStaysInRange(before, now, rate, ceiling);
      RefilledToLatest(front, rate, ceiling);
      ChargeSpends(before, now, rate, ceiling);
      AllowanceGrows(nows, rate, ceiling);
      hide Charge;
    }
  }

  /**
   The admission bound. Whatever the clock readings, backward steps included, the responses
   an account lets through number at most its ceiling (rate times window) plus the rate times
   the span from the first to the largest reading; the floor does not refund anything.
   */
  lemma {:induction false} AdmissionBound(nows: seq<real>, rate: real, ceiling: real)
    requires nows != [] && rate >= 0.0 && ceiling > 0.0
    ensures Within(nows, rate, ceiling) as real <= ceiling + Earned(nows[0], Latest(nows), rate)
  {
    hide Earned;
    var front := nows[..|nows| - 1];
    CreditConserved(nows, rate, ceiling);
    if OverAtEnd(nows, rate, ceiling) && front != [] {
      AdmissionBound(front, rate, ceiling);
      AllowanceGrows(nows, rate, ceiling);
    } else if OverAtEnd(nows, rate, ceiling) {
      EarnedNothing(nows[0], rate);
    } else {
      assert Run(nows, rate, ceiling).credit >= 0.0;
    }
  }

  /** With a zero ceiling the floor lifts every balance back to zero and nothing is limited. */
  lemma ZeroCeilingNeverLimits(a: Account, now: real, rate: real)
    requires rate >= 0.0 && InRange(a, 0.0)
    ensures !Charge(a, now, rate, 0.0).1
  {
    if a.lastRefill.Some? && now - a.lastRefill.value > 0.0 {
      EarnedForward(a.lastRefill.value, now, rate);
    }
  }

  /** Responses at least 1/rate apart are never limited. */
  lemma {:induction false} SpacedChargesAreWithin(nows: seq<real>, rate: real, ceiling: real)
    requires rate > 0.0 && ceiling >= 1.0
    requires forall i :: 0 < i < |nows| ==> nows[i] - nows[i - 1] >= 1.0 / rate
    ensures Within(nows, rate, ceiling) == |nows|
    ensures nows != [] ==> Run(nows, rate, ceiling).credit >= 0.0
    ensures nows != [] ==> Run(nows, rate, ceiling).lastRefill == Some(nows[|nows| - 1])
  {
    if nows != [] {
      var front, now := nows[..|nows| - 1], nows[|nows| - 1];
      SpacedChargesAreWithin(front, rate, ceiling);
      if front != [] {
        assert front[|front| - 1] == nows[|nows| - 2];
        EarnedAtLeastOne(nows[|nows| - 2], now, rate);
        hide Earned;
      }
    }
  }

  lemma EarnedAtLeastOne(x: real, y: real, rate: real)
    requires rate > 0.0 && y - x >= 1.0 / rate
    ensures y > x && Earned(x, y, rate) >= 1.0
  {
    var gap := 1.0 / rate;
    assert gap > 0.0 && gap * rate == 1.0;
    assert (y - x - gap) * rate >= 0.0;
    assert (y - x - gap) * rate == (y - x) * rate - gap * rate;
  }

  // ----- exact figures

  /** One charge in numbers. */
  lemma ChargeInNumbers(a: Account, now: real, rate: real, ceiling: real)
    requires a.lastRefill.Some?
    ensures var (b, over) := Charge(a, now, rate, ceiling);
            var last := a.lastRefill.value;
            var full := if now > last then a.credit + (now - last) * rate else a.credit;
            var capped := if now > last && full > ceiling then ceiling else full;
            && b.credit == (if capped - 1.0 < -ceiling then -ceiling else capped - 1.0)
            && (over <==> b.credit < 0.0)
            && b.lastRefill == Some(if now > last then now else last) && b.slip == a.slip
  {
  }

  /** n charges at one instant. */
  function Burst(now: real, n: nat): (nows: seq<real>)
    ensures |nows| == n && forall i :: 0 <= i < n ==> nows[i] == now
  {
    seq(n, _ => now)
  }

  /**
   A new account holds its full ceiling: of a burst of charges at one instant exactly the whole
   number of credits in the ceiling stay within the limit, or all of them if they are fewer.
   */
  lemma {:induction false} BurstAdmitsCeiling(now: real, rate: real, ceiling: real, n: nat)
    requires ceiling > 0.0
    ensures Within(Burst(now, n), rate, ceiling) == if n as real <= ceiling then n else ceiling.Floor
    ensures n > 0 ==> Run(Burst(now, n), rate, ceiling).lastRefill == Some(now)
    ensures n > 0 ==>
              Run(Burst(now, n), rate, ceiling).credit == if ceiling - n as real < -ceiling then -ceiling else ceiling - n as real
  {
    if n > 0 {
      BurstAdmitsCeiling(now, rate, ceiling, n - 1);
      assert Burst(now, n)[..n - 1] == Burst(now, n - 1);
      assert n as real - 1.0 == (n - 1) as real;
      hide Earned;
    }
  }
}
