/** The burst rate limiter. Time is exact: a clock reading is a real number of seconds. */
module RateLimiting {

  /** The fields of `RateLimiter`, and `get` as a function of the clock reading. */
  datatype Limiter = Limiter(startTokens: int, tokensPerSecond: real, startTime: real, usedTokens: nat) {

    /** Every token the bucket has ever held at time `now`, spent or not. There is no upper cap. */
    function Issued(now: real): int {
      startTokens + (tokensPerSecond * (now - startTime)).Floor
    }

    predicate Grants(now: real) {
      usedTokens < Issued(now)
    }

    function Get(now: real): Limiter {
      if Grants(now) then this.(usedTokens := usedTokens + 1) else this
    }
  }

  class RateLimiter {
    const startTokens: int
    const tokensPerSecond: real
    const startTime: real
    var usedTokens: nat

    ghost function Model(): Limiter
      reads this
    {
      Limiter(startTokens, tokensPerSecond, startTime, usedTokens)
    }

    constructor (maxTokens: int, refillIntervalSec: real, now: real)
      requires refillIntervalSec != 0.0
      ensures Model() == Limiter(maxTokens, 1.0 / refillIntervalSec, now, 0)
    {
      startTokens := maxTokens;
      tokensPerSecond := 1.0 / refillIntervalSec;
      startTime := now;
      usedTokens := 0;
    }

    /** `get` with the clock reading made explicit. */
    method Get(now: real) returns (granted: bool)
      modifies this
      ensures granted == old(Model()).Grants(now)
      ensures Model() == old(Model()).Get(now)
      ensures granted <==> old(usedTokens) < startTokens + (tokensPerSecond * (now - startTime)).Floor
      ensures usedTokens == old(usedTokens) + if granted then 1 else 0
    {
      var secondsSinceStart := now - startTime;
      var numRefilledTokens := (tokensPerSecond * secondsSinceStart).Floor;
      var totalTokens := startTokens + numRefilledTokens;
      assert totalTokens == Model().Issued(now);
      granted := usedTokens < totalTokens;
      if granted {
        usedTokens := usedTokens + 1;
      }
    }
  }

  /** A limiter asked once at each of the clock readings `times`. Up to any call, no more than the initial burst plus
      one per refill interval elapsed is granted, and a call later on adds at most itself; and that much is granted:
      unless every call was, one of these bounds is reached. */
  method GetAll(maxTokens: nat, refillIntervalSec: real, start: real, times: seq<real>) returns (granted: nat)
    requires refillIntervalSec > 0.0
    requires forall j | 0 <= j < |times| :: start <= times[j]
    requires forall i, j | 0 <= i <= j < |times| :: times[i] <= times[j]
    ensures granted <= |times|
    ensures forall j | 0 <= j < |times| ::
              granted <= maxTokens + ((times[j] - start) / refillIntervalSec).Floor + (|times| - 1 - j)
    ensures granted == |times| || exists j | 0 <= j < |times| ::
              granted == maxTokens + ((times[j] - start) / refillIntervalSec).Floor + (|times| - 1 - j)
  {
    hide Bound, Limiter.Issued, Limiter.Grants, Limiter.Get;
    var limiter := new RateLimiter(maxTokens, refillIntervalSec, start);
    ghost var bounds := Bounds(maxTokens, refillIntervalSec, start, times);
    granted := 0;
    for k := 0 to |times|
      invariant limiter.Model() == Limiter(maxTokens, 1.0 / refillIntervalSec, start, granted)
      invariant Tight(bounds[..k], granted)
    {
      BoundsGrow(maxTokens, refillIntervalSec, start, times, bounds, k);
      var ok := Ask(limiter, maxTokens, refillIntervalSec, start, times[k]);
      TightStep(bounds[..k], granted, bounds[k]);
      assert bounds[..k + 1] == bounds[..k] + [bounds[k]];
      if ok { granted := granted + 1; }
    }
    assert bounds[..|times|] == bounds;
    TightMeans(maxTokens, refillIntervalSec, start, times, bounds, granted);
  }

  ghost function Bound(maxTokens: nat, refillIntervalSec: real, start: real, t: real): int
    requires refillIntervalSec > 0.0
  {
    maxTokens + ((t - start) / refillIntervalSec).Floor
  }

  ghost function Bounds(maxTokens: nat, refillIntervalSec: real, start: real, times: seq<real>): (bounds: seq<int>)
    requires refillIntervalSec > 0.0
    ensures |bounds| == |times|
    ensures forall j | 0 <= j < |times| :: bounds[j] == Bound(maxTokens, refillIntervalSec, start, times[j])
  {
    seq(|times|, j requires 0 <= j < |times| => Bound(maxTokens, refillIntervalSec, start, times[j]))
  }

  lemma BoundsGrow(maxTokens: nat, refillIntervalSec: real, start: real, times: seq<real>, bounds: seq<int>, k: nat)
    requires refillIntervalSec > 0.0 && k < |times| == |bounds|
    requires forall j | 0 <= j < |times| :: bounds[j] == Bound(maxTokens, refillIntervalSec, start, times[j])
    requires start <= times[k] && (k > 0 ==> times[k - 1] <= times[k])
    ensures 0 <= bounds[k] && (k > 0 ==> bounds[k - 1] <= bounds[k])
  {
    Elapsed(refillIntervalSec, 0.0, times[k] - start);
    if k > 0 { Elapsed(refillIntervalSec, times[k - 1] - start, times[k] - start); }
  }

  /** One call, in terms of the bound. */
  method Ask(limiter: RateLimiter, maxTokens: nat, refillIntervalSec: real, start: real, now: real)
    returns (granted: bool)
    requires refillIntervalSec > 0.0
    requires limiter.startTokens == maxTokens && limiter.tokensPerSecond == 1.0 / refillIntervalSec
    requires limiter.startTime == start
    modifies limiter
    ensures granted <==> old(limiter.usedTokens) < Bound(maxTokens, refillIntervalSec, start, now)
    ensures limiter.usedTokens == old(limiter.usedTokens) + if granted then 1 else 0
  {
    RefillRate(refillIntervalSec, now - start);
    granted := limiter.Get(now);
  }

  /** Within every bound so far, and with a bound reached unless everything was granted. */
  ghost predicate Tight(bounds: seq<int>, granted: nat) {
    && granted <= |bounds|
    && (forall j | 0 <= j < |bounds| :: granted <= bounds[j] + (|bounds| - 1 - j))
    && (granted == |bounds| || exists j | 0 <= j < |bounds| :: granted == bounds[j] + (|bounds| - 1 - j))
  }

  lemma TightStep(bounds: seq<int>, granted: nat, next: int)
    requires Tight(bounds, granted) && 0 <= next && (bounds != [] ==> bounds[|bounds| - 1] <= next)
    ensures Tight(bounds + [next], if granted < next then granted + 1 else granted)
  {
    var after, g := bounds + [next], if granted < next then granted + 1 else granted;
    assert after[|bounds|] == next;
    if granted < next && granted != |bounds| {
      var j :| 0 <= j < |bounds| && granted == bounds[j] + (|bounds| - 1 - j);
      assert after[j] == bounds[j] && g == after[j] + (|after| - 1 - j);
    }
    if granted >= next {
      assert granted == next;
    }
  }

  lemma TightMeans(maxTokens: nat, refillIntervalSec: real, start: real, times: seq<real>, bounds: seq<int>,
                   granted: nat)
    requires refillIntervalSec > 0.0 && |bounds| == |times| && Tight(bounds, granted)
    requires forall j | 0 <= j < |times| :: bounds[j] == Bound(maxTokens, refillIntervalSec, start, times[j])
    ensures granted <= |times|
    ensures forall j | 0 <= j < |times| ::
              granted <= maxTokens + ((times[j] - start) / refillIntervalSec).Floor + (|times| - 1 - j)
    ensures granted == |times| || exists j | 0 <= j < |times| ::
              granted == maxTokens + ((times[j] - start) / refillIntervalSec).Floor + (|times| - 1 - j)
  {
    forall j | 0 <= j < |times|
      ensures bounds[j] == maxTokens + ((times[j] - start) / refillIntervalSec).Floor
    {
    }
    hide Bound;
    if granted != |times| {
      var j :| 0 <= j < |bounds| && granted == bounds[j] + (|bounds| - 1 - j);
      assert granted == maxTokens + ((times[j] - start) / refillIntervalSec).Floor + (|times| - 1 - j);
    }
  }

  lemma RefillRate(interval: real, x: real)
    requires interval > 0.0
    ensures (1.0 / interval) * x == x / interval
  {
  }

  lemma Elapsed(interval: real, x: real, y: real)
    requires interval > 0.0 && x <= y
    ensures (x / interval).Floor <= (y / interval).Floor
    ensures 0.0 <= x ==> 0 <= (x / interval).Floor
  {
    RefillRate(interval, x);
    RefillRate(interval, y);
    MulMonotone(1.0 / interval, x, y);
    if 0.0 <= x { MulMonotone(1.0 / interval, 0.0, x); }
  }

  lemma MulMonotone(k: real, x: real, y: real)
    requires k > 0.0 && x <= y
    ensures k * x <= k * y
  {
  }

  /** Tokens are never taken back. */
  lemma IssuedGrows(l: Limiter, t: real, u: real)
    requires l.tokensPerSecond > 0.0 && t <= u
    ensures l.Issued(t) <= l.Issued(u)
  {
    MulMonotone(l.tokensPerSecond, t - l.startTime, u - l.startTime);
  }

  /** A clock reading from which on `get` grants the next token. */
  function GrantTime(l: Limiter): (t: real)
    requires l.tokensPerSecond > 0.0
    ensures forall now | now >= t :: l.Grants(now)
  {
    var t := l.startTime + (l.usedTokens + 1 - l.startTokens) as real / l.tokensPerSecond;
    GrantTimeWorks(l, t);
    t
  }

  lemma GrantTimeWorks(l: Limiter, t: real)
    requires l.tokensPerSecond > 0.0
    requires t == l.startTime + (l.usedTokens + 1 - l.startTokens) as real / l.tokensPerSecond
    ensures forall now | now >= t :: l.Grants(now)
  {
    var need := l.usedTokens + 1 - l.startTokens;
    var wait := need as real / l.tokensPerSecond;
    assert l.tokensPerSecond * wait == need as real;
    forall now | now >= t
      ensures l.Grants(now)
    {
      MulMonotone(l.tokensPerSecond, wait, now - l.startTime);
      assert l.tokensPerSecond * (now - l.startTime) >= need as real;
    }
  }
}
