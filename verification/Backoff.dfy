/**
 Retry delays (backend/pkg/retry/backoff.go) in Go's int64 and float64 arithmetic:
 integer operations wrap, int64 to float64 rounds to 53 bits, and a float outside
 int64 converts to an arbitrary int64 (Go Language Specification, sections "Integer
 overflow" and "Conversions between numeric types").
 */
module Backoff {
  import opened Domain

  const MAX64: int := 0x7fff_ffff_ffff_ffff
  const MIN64: int := -0x8000_0000_0000_0000
  const TWO53: int := 0x20_0000_0000_0000

  type Int64 = x: int | MIN64 <= x <= MAX64

  datatype Policy = Policy(strategy: Strategy, baseDelay: Int64, maxDelay: Int64, jitter: bool)

  /**
   What a call does not determine: the int64 an out-of-range conversion yields, the
   random draw (taken modulo its bound) and the coin.
   */
  datatype Draws = Draws(converted: Int64, draw: nat, heads: bool)

  function Wrap(x: int): (r: Int64)
    ensures MIN64 <= x <= MAX64 ==> r == x
  {
    (x - MIN64) % (MAX64 - MIN64 + 1) + MIN64
  }

  function Pow2(n: nat): (p: nat)
    ensures p >= 1
  {
    if n == 0 then 1 else 2 * Pow2(n - 1)
  }

  /** How many low bits of x do not fit a 53-bit significand. */
  function Excess(x: nat): nat {
    if x < TWO53 then 0 else 1 + Excess(x / 2)
  }

  /** x rounded to 53 significant bits, ties to even. */
  function Round53(x: nat): int {
    var ulp := Pow2(Excess(x));
    var q, r := x / ulp, x % ulp;
    (if 2 * r > ulp || (2 * r == ulp && q % 2 == 1) then q + 1 else q) * ulp
  }

  function Float64(x: Int64): int {
    if x >= 0 then Round53(x) else -Round53(-(x as int))
  }

  /** time.Duration(float64(base) * math.Pow(2, n)); the product of a float by 2^n is exact. */
  function Scaled(base: Int64, n: nat, d: Draws): Int64 {
    if n > 1023 then d.converted  // math.Pow is +Inf
    else
      var v := Float64(base) * Pow2(n);
      if MIN64 <= v <= MAX64 then v else d.converted
  }

  function Clamp(attempt: Int64): (n: Int64)
    ensures n >= 1
  {
    if attempt <= 0 then 1 else attempt
  }

  /** The delay of the strategy before jitter and cap. */
  function Unjittered(p: Policy, attempt: Int64, d: Draws): Int64 {
    var n := Clamp(attempt);
    match p.strategy
    case Fixed => p.baseDelay
    case Linear => Wrap(p.baseDelay * n)
    case Exponential => Scaled(p.baseDelay, n - 1, d)
    case Unknown => p.baseDelay
  }

  predicate Jitters(p: Policy, delay: Int64) {
    p.strategy == Exponential && p.jitter && delay > 0
  }

  function Jittered(delay: Int64, d: Draws): Int64
    requires delay > 1
  {
    var j := d.draw % (delay / 2);
    if d.heads then Wrap(delay + j) else Wrap(delay - j)
  }

  function Cap(p: Policy): Int64 {
    if p.maxDelay == 0 then DAY else p.maxDelay
  }

  function Bounded(p: Policy, delay: Int64): Int64 {
    var capped := if delay > Cap(p) then Cap(p) else delay;
    if capped < 0 then p.baseDelay else capped
  }

  /** The result of NextDelay; None when rand.Int63n panics on a zero bound. */
  function Delay(p: Policy, attempt: Int64, d: Draws): Option<Int64> {
    var delay := Unjittered(p, attempt, d);
    if !Jitters(p, delay) then Some(Bounded(p, delay))
    else if delay == 1 then None
    else Some(Bounded(p, Jittered(delay, d)))
  }

  /** The jitter block: a random part of half the delay, added or taken off. */
  method Jitter(delay: Int64, d: Draws) returns (result: Option<Int64>)
    requires delay > 0
    ensures result == None <==> delay == 1
    ensures result.Some? ==> result.value == Jittered(delay, d)
    ensures result.Some? && 3 * delay <= 2 * MAX64 ==>
              && delay < 2 * result.value < 3 * delay
              && (if d.heads then result.value >= delay else result.value <= delay)
  {
    if delay > 1 && 3 * delay <= 2 * MAX64 {
      JitterIsUnderHalf(delay, d);
    }
    var bound := delay / 2;
    if bound <= 0 {
      return None;
    }
    var jitter := d.draw % bound;
    result := Some(if d.heads then Wrap(delay + jitter) else Wrap(delay - jitter));
  }

  method NextDelay(p: Policy, attempt: Int64, d: Draws) returns (result: Option<Int64>)
    ensures result == Delay(p, attempt, d)
    ensures p.baseDelay >= 0 && result.Some? ==> 0 <= result.value <= Max(p.baseDelay, Cap(p))
  {
    var n := attempt;
    if n <= 0 {
      n := 1;
    }
    var delay: Int64;
    match p.strategy {
      case Fixed => delay := p.baseDelay;
      case Linear => delay := Wrap(p.baseDelay * n);
      case Exponential =>
        delay := Scaled(p.baseDelay, n - 1, d);
        assert delay == Unjittered(p, attempt, d);
        if p.jitter && delay > 0 {
          var jittered := Jitter(delay, d);
          if jittered == None {
            return None;
          }
          delay := jittered.value;
        }
      case Unknown => delay := p.baseDelay;
    }
    assert Delay(p, attempt, d) == Some(Bounded(p, delay));
    var maxDelay := p.maxDelay;
    if maxDelay == 0 {
      maxDelay := DAY;
    }
    if delay > maxDelay {
      delay := maxDelay;
    }
    if delay < 0 {
      delay := p.baseDelay;
    }
    result := Some(delay);
    SafeForEveryAttempt(p, attempt, d);
  }

  // ----- Every int64 input ------------------------------------------------------

  /** The one panic: jitter on an exponential delay of exactly one nanosecond. */
  lemma PanicsExactlyAtOneNanosecond(p: Policy, attempt: Int64, d: Draws)
    ensures Delay(p, attempt, d) == None <==>
            p.strategy == Exponential && p.jitter && Unjittered(p, attempt, d) == 1
    ensures Delay(Policy(Exponential, 1, 0, true), 1, d) == None
  {
    assert Excess(1) == 0 && Pow2(0) == 1;
    assert Round53(1) == 1;
  }

  /**
   Whatever overflows, the result lies between zero and the larger of base and cap
   when the base is not negative; a negative result is the base itself.
   */
  lemma SafeForEveryAttempt(p: Policy, attempt: Int64, d: Draws)
    requires Delay(p, attempt, d).Some?
    ensures p.baseDelay >= 0 ==> 0 <= Delay(p, attempt, d).value <= Max(p.baseDelay, Cap(p))
    ensures Delay(p, attempt, d).value < 0 ==> Delay(p, attempt, d).value == p.baseDelay
  {
  }

  // ----- Without overflow ---------------------------------------------------------

  lemma {:induction false} Pow2Monotone(a: nat, b: nat)
    requires a <= b
    ensures Pow2(a) <= Pow2(b)
    decreases b
  {
    if a < b {
      Pow2Monotone(a, b - 1);
    }
  }

  /** The strategy's delay for attempt n as an integer, when nothing rounds or overflows. */
  function Nominal(p: Policy, n: nat): int
    requires n >= 1
  {
    match p.strategy
    case Fixed => p.baseDelay
    case Linear => p.baseDelay * n
    case Exponential => p.baseDelay * Pow2(n - 1)
    case Unknown => p.baseDelay
  }

  predicate Fits(p: Policy, n: nat)
    requires n >= 1
  {
    && Nominal(p, n) <= MAX64
    && (p.strategy == Exponential ==> Float64(p.baseDelay) == p.baseDelay && n <= 1024)
  }

  lemma UnjitteredIsNominal(p: Policy, n: Int64, d: Draws)
    requires n >= 1 && p.baseDelay >= 0 && Fits(p, n)
    ensures Unjittered(p, n, d) == Nominal(p, n) >= 0
  {
    match p.strategy
    case Linear => ProductNonNegative(p.baseDelay, n);
    case Exponential => ProductNonNegative(p.baseDelay, Pow2(n - 1));
    case _ =>
  }

  lemma ProductNonNegative(a: nat, b: nat)
    ensures a * b >= 0
  {
  }

  /**
   When the result is the nominal delay up to the cap: nothing overflows or rounds, or
   what comes of it does not show behind the cap or the fallback to the base.
   */
  predicate Exact(p: Policy, n: nat)
    requires n >= 1
  {
    match p.strategy
    case Linear =>
      var wrapped := Wrap(p.baseDelay * n);
      p.baseDelay * n <= MAX64 || wrapped >= Cap(p) || (wrapped < 0 && p.baseDelay == Cap(p))
    case Exponential =>
      var scaled := Float64(p.baseDelay) * Pow2(n - 1);
      && n <= 1024 && scaled <= MAX64
      && (Float64(p.baseDelay) == p.baseDelay || (scaled >= Cap(p) && Nominal(p, n) >= Cap(p)))
    case _ => true
  }

  /** Without jitter the result is the nominal delay, capped, exactly if Exact. */
  lemma ExactWithoutJitter(p: Policy, n: Int64)
    requires n >= 1 && p.baseDelay >= 0 && p.maxDelay >= 0
    requires p.strategy == Exponential ==> !p.jitter
    ensures (forall d :: Delay(p, n, d) == Some(Min(Nominal(p, n), Cap(p)))) <==> Exact(p, n)
  {
    match p.strategy
    case Linear =>
      ProductNonNegative(p.baseDelay, n);
      assert Delay(p, n, Draws(0, 0, true)) == Some(Bounded(p, Wrap(p.baseDelay * n)));
    case Exponential => ExactExponential(p, n);
    case _ =>
  }

  lemma ExactExponential(p: Policy, n: Int64)
    requires n >= 1 && p.baseDelay >= 0 && p.maxDelay >= 0 && p.strategy == Exponential && !p.jitter
    ensures (forall d :: Delay(p, n, d) == Some(Min(Nominal(p, n), Cap(p)))) <==> Exact(p, n)
  {
    var f, b, two := Float64(p.baseDelay), p.baseDelay, Pow2(n - 1);
    FloatNonNegative(b);
    ProductNonNegative(f, two);
    ProductNonNegative(b, two);
    if n <= 1024 && f * two <= MAX64 {
      if f != b {
        ScalesApart(f, b, two);
      }
      assert Delay(p, n, Draws(0, 0, true)) == Some(Min(f * two, Cap(p)));
    } else {
      // The conversion may yield anything: zero and one cannot both be right.
      assert Delay(p, n, Draws(0, 0, true)) == Some(0);
      assert Delay(p, n, Draws(1, 0, true)) == Some(1);
    }
  }

  lemma FloatNonNegative(x: Int64)
    requires x >= 0
    ensures Float64(x) >= 0
  {
    ProductNonNegative(x / Pow2(Excess(x)), Pow2(Excess(x)));
    ProductNonNegative(x / Pow2(Excess(x)) + 1, Pow2(Excess(x)));
  }

  lemma ScalesApart(a: int, b: int, k: int)
    requires a != b && k >= 1
    ensures a * k != b * k
  {
    assert (a - b) * k != 0;
    assert (a - b) * k == a * k - b * k;
  }

  lemma FitsIsExact(p: Policy, n: nat)
    requires n >= 1 && p.baseDelay >= 0 && Fits(p, n)
    ensures Exact(p, n)
  {
  }

  /** Exact delays never shrink from one attempt to a later one. */
  lemma MonotoneWithoutJitter(p: Policy, n: Int64, m: Int64, d: Draws, e: Draws)
    requires 1 <= n <= m && p.baseDelay >= 0 && p.maxDelay >= 0 && Exact(p, n) && Exact(p, m)
    requires p.strategy == Exponential ==> !p.jitter
    ensures Delay(p, n, d).Some? && Delay(p, m, e).Some?
    ensures Delay(p, n, d).value <= Delay(p, m, e).value
  {
    if p.strategy == Exponential {
      Pow2Monotone(n - 1, m - 1);
      ScaleMonotone(p.baseDelay, Pow2(n - 1), Pow2(m - 1));
    } else {
      ScaleMonotone(p.baseDelay, n, m);
    }
    ExactWithoutJitter(p, n);
    ExactWithoutJitter(p, m);
    assert Delay(p, n, d) == Some(Min(Nominal(p, n), Cap(p)));
    assert Delay(p, m, e) == Some(Min(Nominal(p, m), Cap(p)));
  }

  lemma ScaleMonotone(b: nat, x: nat, y: nat)
    requires x <= y
    ensures b * x <= b * y
  {
  }

  /** Overflow is what monotonicity cannot survive: a wrapped linear delay can be zero. */
  lemma WrappedLinearDelayVanishes(d: Draws)
    ensures var p := Policy(Linear, 0x4000_0000_0000_0000, 0, false);
            Delay(p, 1, d) == Some(DAY) && Delay(p, 4, d) == Some(0)
  {
    assert 0x4000_0000_0000_0000 * 4 == 0x1_0000_0000_0000_0000;
    assert Wrap(0x1_0000_0000_0000_0000) == 0;
  }

  // ----- Jitter -------------------------------------------------------------------

  /** Less than half the delay either way, without overflow of the sum. */
  lemma JitterIsUnderHalf(delay: Int64, d: Draws)
    requires delay > 1 && 3 * delay <= 2 * MAX64
    ensures delay < 2 * Jittered(delay, d) < 3 * delay
    ensures if d.heads then Jittered(delay, d) >= delay else Jittered(delay, d) <= delay
  {
    var j := d.draw % (delay / 2);
    assert 0 <= j < delay / 2;
  }

  /**
   The quarter promised by the documentation and its test holds exactly for the draws
   that do not exceed a quarter of the delay. Others happen: for the test's policy and
   attempt, whose bounds are 15 and 25 seconds, the delay can be almost 30.
   */
  lemma QuarterJitterOnlyForSmallDraws(delay: Int64, d: Draws)
    requires delay > 1 && 3 * delay <= 2 * MAX64
    ensures 3 * delay <= 4 * Jittered(delay, d) <= 5 * delay <==> 4 * (d.draw % (delay / 2)) <= delay
    ensures Delay(Policy(Exponential, 10 * SECOND, 0, true), 2, Draws(0, 10 * SECOND - 1, true))
            == Some(30 * SECOND - 1)
  {
    var p, e := Policy(Exponential, 10 * SECOND, 0, true), Draws(0, 10 * SECOND - 1, true);
    SecondsAreExact(10);
    assert Pow2(1) == 2;
    UnjitteredIsNominal(p, 2, e);
    var j := d.draw % (delay / 2);
    assert 0 <= j < delay / 2;
  }

  /** The part of half the delay that is drawn. */
  function Drawn(v: int, d: Draws): nat
    requires v > 1
  {
    d.draw % (v / 2)
  }

  /**
   The result under jitter, in integers: the nominal delay plus the drawn part on heads,
   minus it on tails, up to the cap; and the base if the sum leaves int64.
   */
  lemma JitteredExactly(p: Policy, n: Int64, d: Draws)
    requires p.strategy == Exponential && p.jitter && n >= 1 && p.baseDelay >= 0 && p.maxDelay >= 0 && Fits(p, n)
    requires Nominal(p, n) != 1
    ensures var v := Nominal(p, n);
            Delay(p, n, d)
            == Some(if v == 0 then 0
                    else if !d.heads then Min(v - Drawn(v, d), Cap(p))
                    else if v + Drawn(v, d) <= MAX64 then Min(v + Drawn(v, d), Cap(p))
                    else p.baseDelay)
  {
    UnjitteredIsNominal(p, n, d);
    if Nominal(p, n) > 1 {
      JitterInIntegers(Nominal(p, n), d);
    }
  }

  lemma JitterInIntegers(delay: Int64, d: Draws)
    requires delay > 1
    ensures 0 <= Drawn(delay, d) < delay / 2
    ensures !d.heads ==> Jittered(delay, d) == delay - Drawn(delay, d)
    ensures d.heads && delay + Drawn(delay, d) <= MAX64 ==> Jittered(delay, d) == delay + Drawn(delay, d)
    ensures d.heads && delay + Drawn(delay, d) > MAX64 ==> Jittered(delay, d) < 0
  {
    assert 0 <= d.draw % (delay / 2) < delay / 2;
  }

  /** Tails never lengthens the delay, heads never shortens it, and it stays within half. */
  lemma JitterOnTheCoinsSide(p: Policy, n: Int64, d: Draws)
    requires p.strategy == Exponential && p.jitter && n >= 1 && p.baseDelay >= 0 && p.maxDelay >= 0 && Fits(p, n)
    requires 1 < Nominal(p, n) && 3 * Nominal(p, n) <= 2 * MAX64
    ensures Delay(p, n, d).Some?
    ensures var v, r := Nominal(p, n), Delay(p, n, d).value;
            && (!d.heads ==> r <= Min(v, Cap(p)))
            && (d.heads ==> r >= Min(v, Cap(p)))
            && 2 * r < 3 * v
            && (2 * Cap(p) >= 3 * v ==> v < 2 * r && Max(r - v, v - r) == Drawn(v, d))
  {
    JitteredExactly(p, n, d);
    JitterInIntegers(Nominal(p, n), d);
  }

  // ----- Odd inputs ---------------------------------------------------------------

  /** Attempts from zero down count as the first. */
  lemma NoAttemptIsTheFirst(p: Policy, attempt: Int64, d: Draws)
    requires attempt <= 0
    ensures Delay(p, attempt, d) == Delay(p, 1, d)
  {
  }

  /** No cap is a cap of a day. */
  lemma NoCapIsADay(p: Policy, attempt: Int64, d: Draws)
    requires p.maxDelay == 0
    ensures Delay(p, attempt, d) == Delay(p.(maxDelay := 24 * 60 * 60 * 1_000_000_000), attempt, d)
  {
  }

  /** A negative cap cuts every delay to a negative one, and so leaves the base. */
  lemma NegativeCapYieldsTheBase(p: Policy, attempt: Int64, d: Draws)
    requires p.maxDelay < 0 && Delay(p, attempt, d).Some?
    ensures Delay(p, attempt, d) == Some(p.baseDelay)
  {
  }

  /** A delay that comes out negative, as with a negative base, leaves the base. */
  lemma NegativeDelayYieldsTheBase(p: Policy, attempt: Int64, d: Draws)
    requires p.maxDelay >= 0
    ensures Unjittered(p, attempt, d) < 0 ==> Delay(p, attempt, d) == Some(p.baseDelay)
    ensures p.baseDelay < 0 && (p.strategy == Fixed || p.strategy == Unknown) ==>
              Delay(p, attempt, d) == Some(p.baseDelay)
  {
  }

  /** The float nearest to an integer: a multiple of its unit of 53 bits, no more than half of it away. */
  lemma RoundsToNearest(x: nat) returns (q: nat)
    ensures var ulp := Pow2(Excess(x));
            && Round53(x) == q * ulp
            && 2 * Max(q * ulp - x, x - q * ulp) <= ulp
            && (2 * Max(q * ulp - x, x - q * ulp) == ulp ==> q % 2 == 0)
            && x < TWO53 * ulp
            && (ulp > 1 ==> 2 * x >= TWO53 * ulp)
  {
    var ulp := Pow2(Excess(x));
    UnitFits(x);
    q := Rounded(x, ulp);
  }

  lemma Rounded(x: nat, u: nat) returns (n: nat)
    requires u > 0
    ensures var q, r := x / u, x % u;
            n == if 2 * r > u || (2 * r == u && q % 2 == 1) then q + 1 else q
    ensures 2 * Max(n * u - x, x - n * u) <= u
    ensures 2 * Max(n * u - x, x - n * u) == u ==> n % 2 == 0
  {
    var q, r := DivMod(x, u);
    assert q >= 0;
    n := if 2 * r > u || (2 * r == u && q % 2 == 1) then q + 1 else q;
    Units(q, u);
  }

  lemma Units(q: int, u: int)
    ensures (q + 1) * u == q * u + u && u * q == q * u
  {
  }

  lemma {:induction false} UnitFits(x: nat)
    ensures x < TWO53 * Pow2(Excess(x))
    ensures Pow2(Excess(x)) > 1 ==> 2 * x >= TWO53 * Pow2(Excess(x))
    decreases x
  {
    if x >= TWO53 {
      UnitFits(x / 2);
      var p := Pow2(Excess(x / 2));
      assert Pow2(Excess(x)) == 2 * p && x < 2 * (TWO53 * p);
      if Excess(x / 2) == 0 {
        assert p == 1;
      } else {
        assert p > 1 by {
          assert p == 2 * Pow2(Excess(x / 2) - 1);
        }
      }
    }
  }

  /** A linear delay that wraps is replaced by the base if it comes out negative, else capped as usual. */
  lemma WrappedLinearDelay(p: Policy, n: Int64, d: Draws)
    requires p.strategy == Linear && n >= 1 && p.baseDelay >= 0 && p.maxDelay >= 0
    ensures exists turns: nat ::
              var wrapped := p.baseDelay * n - turns * 0x1_0000_0000_0000_0000;
              && MIN64 <= wrapped <= MAX64
              && Delay(p, n, d) == Some(if wrapped < 0 then p.baseDelay else Min(wrapped, Cap(p)))
  {
    ProductNonNegative(p.baseDelay, n);
    var turns := (p.baseDelay * n - MIN64) / 0x1_0000_0000_0000_0000;
    assert Wrap(p.baseDelay * n) == p.baseDelay * n - turns * 0x1_0000_0000_0000_0000;
  }

  // ----- The executor's policy -------------------------------------------------------

  /** backend/internal/worker/executor.go builds this for retry_delay_sec of a job. */
  function ExecutorPolicy(strategy: Strategy, sec: Int32): Policy {
    Policy(strategy, sec * SECOND, DAY, strategy == Exponential)
  }

  /** Whole seconds have enough factors of two to be exact floats. */
  lemma SecondsAreExact(sec: Int32)
    requires sec >= 0
    ensures Float64(sec * SECOND) == sec * SECOND
  {
    var x := sec * SECOND;
    assert x == 512 * (sec * 1953125);
    FewExcessBits(x, 9);
    DividesBySmallPower(x, sec * 1953125, Excess(x));
  }

  lemma {:induction false} FewExcessBits(x: nat, n: nat)
    requires x < TWO53 * Pow2(n)
    ensures Excess(x) <= n
    decreases n
  {
    if x >= TWO53 {
      assert n > 0;
      assert x / 2 < TWO53 * Pow2(n - 1);
      FewExcessBits(x / 2, n - 1);
    }
  }

  lemma DividesBySmallPower(x: nat, q: nat, e: nat)
    requires x == 512 * q && e <= 9
    ensures x % Pow2(e) == 0 && x / Pow2(e) * Pow2(e) == x
  {
    PowersSplit(e, 9);
    Associate(Pow2(e), Pow2(9 - e), q);
    assert Pow2(9) == 512;
    MultipleDivides(x, Pow2(e), Pow2(9 - e) * q);
  }

  lemma Associate(a: int, b: int, c: int)
    ensures a * b * c == a * (b * c)
  {
  }

  lemma MoveTwo(a: int, b: int)
    ensures 2 * a * b == a * (2 * b)
  {
  }

  lemma {:induction false} PowersSplit(a: nat, n: nat)
    requires a <= n
    ensures Pow2(n) == Pow2(a) * Pow2(n - a)
    decreases n - a
  {
    if a < n {
      PowersSplit(a + 1, n);
      MoveTwo(Pow2(a), Pow2(n - a - 1));
    } else {
      assert Pow2(n - a) == 1;
    }
  }

  lemma MultipleDivides(x: nat, p: int, m: int)
    requires p > 0 && x == p * m
    ensures x % p == 0 && x / p * p == x
  {
    var q, r := DivMod(x, p);
    assert r == p * (m - q);
    AtLeastOneMultiple(p, m - q);
  }

  lemma DivMod(x: nat, p: int) returns (q: int, r: int)
    requires p > 0
    ensures q == x / p && r == x % p && x == p * q + r && 0 <= r < p
  {
    q, r := x / p, x % p;
  }

  lemma AtLeastOneMultiple(p: int, k: int)
    requires p > 0
    ensures k >= 1 ==> p * k >= p
    ensures k <= -1 ==> p * k <= -p
  {
    if k >= 1 {
      assert p * k == p * (k - 1) + p && p * (k - 1) >= 0;
    } else if k <= -1 {
      assert p * k == p * (k + 1) - p && p * -(k + 1) >= 0;
    }
  }

  /**
   Twice a lower bound for the k-th retry delay of a job: the nominal delay, half of it
   under jitter, never beyond the cap, and nothing when the arithmetic can overflow.
   */
  function TwiceLeast(strategy: Strategy, sec: nat, k: nat): nat
    requires k >= 1
  {
    var b := sec * SECOND;
    match strategy
    case Fixed => 2 * Min(b, DAY)
    case Unknown => 2 * Min(b, DAY)
    case Linear => if 0 <= b * k <= MAX64 then 2 * Min(b * k, DAY) else 0
    case Exponential =>
      var v := b * Pow2(k - 1);
      if 0 < 2 * v <= MAX64 && k <= 1024 then Min(v + 1, 2 * DAY) else 0
  }

  lemma DelayAtLeast(strategy: Strategy, sec: Int32, k: Int64, d: Draws)
    requires sec >= 0 && k >= 1
    requires Delay(ExecutorPolicy(strategy, sec), k, d).Some?
    ensures 2 * Delay(ExecutorPolicy(strategy, sec), k, d).value >= TwiceLeast(strategy, sec, k)
  {
    var p := ExecutorPolicy(strategy, sec);
    SafeForEveryAttempt(p, k, d);
    if TwiceLeast(strategy, sec, k) > 0 {
      SecondsAreExact(sec);
      UnjitteredIsNominal(p, k, d);
      if strategy == Exponential && Unjittered(p, k, d) > 1 {
        JitterIsUnderHalf(Unjittered(p, k, d), d);
      }
    }
  }

  /** The executor's policy cannot panic exactly while its delay fits: no whole seconds are 1 ns. */
  lemma ExecutorPolicyDoesNotPanic(strategy: Strategy, sec: Int32, k: Int64)
    requires sec >= 0 && k >= 1
    ensures var p := ExecutorPolicy(strategy, sec);
            (forall d :: Delay(p, k, d).Some?) <==> (strategy == Exponential ==> Nominal(p, k) <= MAX64 && k <= 1024)
  {
    var p := ExecutorPolicy(strategy, sec);
    if strategy == Exponential {
      SecondsAreExact(sec);
      ProductNonNegative(p.baseDelay, Pow2(k - 1));
      if Nominal(p, k) <= MAX64 && k <= 1024 {
        if sec > 0 {
          ScaleMonotone(p.baseDelay, 1, Pow2(k - 1));
        }
      } else {
        assert Delay(p, k, Draws(1, 0, true)) == None;
      }
    }
  }

  /**
   The delay of a job's k-th retry while it fits: retry_delay_sec seconds, k times that,
   or 2^(k-1) times that moved by the drawn part; never more than a day.
   */
  lemma ExecutorDelay(strategy: Strategy, sec: Int32, k: Int64, d: Draws)
    requires sec >= 0 && k >= 1
    requires match strategy
             case Linear => sec * 1_000_000_000 * k <= MAX64
             case Exponential => k <= 1024 && 2 * (sec * 1_000_000_000 * Pow2(k - 1)) <= MAX64
             case _ => true
    ensures var b, day := sec * 1_000_000_000, 86_400_000_000_000;
            Delay(ExecutorPolicy(strategy, sec), k, d)
            == Some(match strategy
                    case Linear => Min(b * k, day)
                    case Exponential =>
                      var v := b * Pow2(k - 1);
                      if v <= 1 then 0 else Min(if d.heads then v + Drawn(v, d) else v - Drawn(v, d), day)
                    case _ => Min(b, day))
  {
    var p := ExecutorPolicy(strategy, sec);
    SecondsAreExact(sec);
    if strategy == Exponential {
      var v := sec * SECOND * Pow2(k - 1);
      ProductNonNegative(sec * SECOND, Pow2(k - 1));
      if sec > 0 {
        ScaleMonotone(sec * SECOND, 1, Pow2(k - 1));
        JitterInIntegers(v, d);
      }
      JitteredExactly(p, k, d);
    } else {
      ExactWithoutJitter(p, k);
      assert Delay(p, k, d) == Some(Min(Nominal(p, k), Cap(p)));
    }
  }
}
