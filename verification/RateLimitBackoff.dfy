/** Requeue delays after HTTP 429 answers: a shared attempt counter per object, a doubling
    loop with a cap, and multiplicative jitter. Durations are nanoseconds. */
module RateLimitBackoff {
  import opened Results

  const BASE: int := 2_000_000_000
  const CAP: int := 120_000_000_000
  const FLOOR: int := 1_000_000_000

  datatype Object = Object(namespace: string, name: string)
  type Attempts = map<Object, nat>

  /** How a reconcile of one object ended. */
  datatype Ending = Succeeded(requeueAfter: nat) | RateLimited | OtherError
  datatype Report = Report(target: Object, ending: Ending)

  function Pow2(n: nat): (r: nat)
    ensures r >= 1
  {
    if n == 0 then 1 else 2 * Pow2(n - 1)
  }

  /** The nominal delay of attempt n = 1, 2, ... */
  function Nominal(n: nat): int
    requires n >= 1
  {
    Min(BASE * Pow2(n - 1), CAP)
  }

  function Clamp(x: int): int {
    if x < FLOOR then FLOOR else if x > CAP then CAP else x
  }

  predicate Jitter(m: real) {
    0.8 <= m <= 1.2
  }

  function Jittered(b: int, m: real): int {
    (b as real * m).Floor
  }

  function Delay(n: nat, m: real): int
    requires n >= 1
  {
    Clamp(Jittered(Nominal(n), m))
  }

  /** The doubling loop computes min(base * 2^(attempt-1), cap) although it stops early. */
  method Doubling(attempt: nat) returns (backoff: int)
    requires attempt >= 1
    ensures backoff == Nominal(attempt)
  {
    backoff := BASE;
    var i := 1;
    while i < attempt
      invariant 1 <= i <= attempt
      invariant backoff == BASE * Pow2(i - 1) < CAP
    {
      if backoff >= CAP / 2 {
        Pow2Monotone(i, attempt - 1);
        backoff := CAP;
        break;
      }
      backoff := backoff * 2;
      i := i + 1;
    }
    if backoff > CAP {
      backoff := CAP;
    }
  }

  lemma {:induction false} Pow2Monotone(m: nat, n: nat)
    requires m <= n
    ensures Pow2(m) <= Pow2(n)
    decreases n
  {
    if m < n {
      Pow2Monotone(m, n - 1);
    }
  }

  /** Below the cap only six nominal delays exist, the largest 64 s. */
  lemma BelowCapAtMost64s(n: nat)
    requires n >= 1 && Nominal(n) < CAP
    ensures Nominal(n) == BASE * Pow2(n - 1) <= 64_000_000_000
  {
    assert Pow2(5) == 32 && Pow2(6) == 64;
    if n - 1 >= 6 {
      Pow2Monotone(6, n - 1);
    } else {
      Pow2Monotone(n - 1, 5);
    }
  }

  /** Every jittered delay stays within the floor and the cap, and strictly grows from one
      attempt to the next, whatever the two jitters, as long as the nominal delay is below
      the cap. */
  lemma DelaysGrowUntilCap(n: nat, m1: real, m2: real)
    requires n >= 1 && Jitter(m1) && Jitter(m2)
    ensures FLOOR <= Delay(n, m1) <= CAP
    ensures Nominal(n) < CAP ==> Delay(n, m1) < Delay(n + 1, m2)
  {
    if Nominal(n) < CAP {
      NominalDoubles(n);
      JitterIsSmall(Nominal(n), m1);
      JitterIsSmall(Nominal(n + 1), m2);
      ClampGrows(Nominal(n), Nominal(n + 1), Jittered(Nominal(n), m1), Jittered(Nominal(n + 1), m2));
    }
  }

  /** The delay is the nominal one times the jitter, rounded down, wherever that is within the
      floor and the cap. */
  lemma DelayFollowsJitter(n: nat, m: real)
    requires n >= 1
    ensures var exact := Nominal(n) as real * m;
            && (FLOOR as real <= exact < CAP as real + 1.0 ==> Delay(n, m) as real <= exact < Delay(n, m) as real + 1.0)
            && (exact < FLOOR as real ==> Delay(n, m) == FLOOR)
            && (exact >= CAP as real ==> Delay(n, m) == CAP)
  {
  }

  lemma NominalDoubles(n: nat)
    requires n >= 1 && Nominal(n) < CAP
    ensures BASE <= Nominal(n) <= 64_000_000_000 && Nominal(n + 1) == Min(2 * Nominal(n), CAP)
  {
    BelowCapAtMost64s(n);
    Pow2Monotone(0, n - 1);
  }

  lemma ClampGrows(b: int, c: int, x: int, y: int)
    requires BASE <= b <= 64_000_000_000 && c == Min(2 * b, CAP)
    requires 5 * x <= 6 * b && 4 * c <= 5 * (y + 1)
    ensures Clamp(x) < Clamp(y)
  {
  }

  lemma JitterIsSmall(b: int, m: real)
    requires b >= 0 && Jitter(m)
    ensures 4 * b <= 5 * (Jittered(b, m) + 1)
    ensures 5 * Jittered(b, m) <= 6 * b
  {
    Scaled(b as real, m);
    FloorIsClose(b, b as real * m);
  }

  lemma FloorIsClose(b: int, y: real)
    requires 0.8 * b as real <= y <= 1.2 * b as real
    ensures 4 * b <= 5 * (y.Floor + 1)
    ensures 5 * y.Floor <= 6 * b
  {
    var f := y.Floor as real;
    assert f <= y < f + 1.0;
  }

  lemma Scaled(x: real, m: real)
    requires x >= 0.0 && Jitter(m)
    ensures 0.8 * x <= x * m <= 1.2 * x
  {
    assert x * (m - 0.8) >= 0.0 && x * (1.2 - m) >= 0.0;
  }

  // ----- The attempt counter -----

  function Lookup(a: Attempts, o: Object): nat {
    if o in a then a[o] else 0
  }

  predicate Resets(e: Ending) {
    e.OtherError? || (e.Succeeded? && e.requeueAfter == 0)
  }

  function Observe(a: Attempts, r: Report): Attempts {
    if r.target.namespace == "" || r.target.name == "" then a
    else if Resets(r.ending) then a - {r.target}
    else if r.ending.RateLimited? then a[r.target := Lookup(a, r.target) + 1]
    else a
  }

  function ObserveAll(rs: seq<Report>): Attempts {
    if rs == [] then map[] else Observe(ObserveAll(rs[..|rs| - 1]), rs[|rs| - 1])
  }

  /** The rate-limited endings of `o` that no later ending of `o` has reset. */
  ghost function Pending(rs: seq<Report>, o: Object): set<nat> {
    set i: nat | i < |rs| && rs[i] == Report(o, RateLimited) &&
                 forall j :: i < j < |rs| && rs[j].target == o ==> !Resets(rs[j].ending)
  }

  lemma PendingOfPrefix(p: seq<Report>, last: Report, o: Object)
    ensures Pending(p + [last], o) ==
            if last.target == o && Resets(last.ending) then {}
            else if last == Report(o, RateLimited) then Pending(p, o) + {|p|}
            else Pending(p, o)
  {
    var rs := p + [last];
    forall i: nat | i < |p|
      ensures i in Pending(rs, o) <==> i in Pending(p, o) && !(last.target == o && Resets(last.ending))
    {
      assert rs[i] == p[i] && rs[|p|] == last;
      assert forall j :: i < j < |p| ==> rs[j] == p[j];
    }
  }

  /** The counter is the number of rate-limited endings since the last resetting one; a
      success that asks to be requeued neither counts nor resets. */
  lemma {:induction false} CounterCountsSinceReset(rs: seq<Report>, o: Object)
    requires o.namespace != "" && o.name != ""
    ensures Lookup(ObserveAll(rs), o) == |Pending(rs, o)|
  {
    if rs == [] {
      assert Pending(rs, o) == {};
    } else {
      var p, last := rs[..|rs| - 1], rs[|rs| - 1];
      CounterCountsSinceReset(p, o);
      PendingOfPrefix(p, last, o);
      assert rs == p + [last];
    }
  }

  /** The deferred handler of a reconcile and the state it shares with the others. */
  class Limiter {
    var attempts: Attempts

    constructor ()
      ensures attempts == map[]
    {
      attempts := map[];
    }

    method NextBackoff(o: Object, m: real) returns (delay: int)
      requires Jitter(m)
      modifies this
      ensures attempts == Observe(old(attempts), Report(o, RateLimited))
      ensures delay == if o.namespace == "" || o.name == "" then FLOOR else Delay(Lookup(attempts, o), m)
    {
      if o.namespace == "" || o.name == "" {
        return FLOOR;
      }
      var attempt := 1;
      if o in attempts {
        attempt := attempts[o] + 1;
      }
      attempts := attempts[o := attempt];
      var backoff := Doubling(attempt);
      delay := Jittered(backoff, m);
      if delay < FLOOR {
        delay := FLOOR;
      }
      if delay > CAP {
        delay := CAP;
      }
    }

    /** Turns a rate-limited ending into a delayed requeue and resets on the others. */
    method Finish(o: Object, ending: Ending, m: real) returns (requeueAfter: int, failed: bool)
      requires Jitter(m)
      modifies this
      ensures attempts == Observe(old(attempts), Report(o, ending))
      ensures failed == ending.OtherError?
      ensures ending.RateLimited? ==>
                requeueAfter == (if o.namespace == "" || o.name == "" then FLOOR else Delay(Lookup(attempts, o), m))
      ensures ending.RateLimited? ==> FLOOR <= requeueAfter <= CAP
      ensures ending.Succeeded? ==> requeueAfter == ending.requeueAfter
    {
      if ending.RateLimited? {
        requeueAfter := NextBackoff(o, m);
        return requeueAfter, false;
      }
      if ending.OtherError? || ending.requeueAfter == 0 {
        if o.namespace != "" && o.name != "" {
          attempts := attempts - {o};
        }
      }
      return (if ending.Succeeded? then ending.requeueAfter else 0), ending.OtherError?;
    }
  }
}
