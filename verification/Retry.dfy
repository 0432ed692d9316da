/**
 The SDK's retry loop and its backoff arithmetic (sdk/go/client.go `do`, `wait`). Durations are
 nanoseconds in an int64, and `minBackoff << attempt` wraps around.
 */
module Retry {

  const TWO63: int := 0x8000_0000_0000_0000
  const TWO64: int := 0x1_0000_0000_0000_0000
  /** The default bounds: 500 ms and 30 s. */
  const DEFAULT_MIN: int := 500_000_000
  const DEFAULT_MAX: int := 30_000_000_000

  function Pow2(n: nat): (p: int)
    ensures p >= 1
  {
    if n == 0 then 1 else 2 * Pow2(n - 1)
  }

  /** The int64 with the same low 64 bits as x. */
  function Wrap64(x: int): (w: int)
    ensures -TWO63 <= w < TWO63
    ensures (w - x) % TWO64 == 0
    ensures -TWO63 <= x < TWO63 ==> w == x
  {
    var m := x % TWO64;
    if m >= TWO63 then m - TWO64 else m
  }

  /** The backoff before jitter. */
  function Backoff(min: int, max: int, attempt: nat): int {
    var d := Wrap64(min * Pow2(attempt));
    if d > max || d <= 0 then max else d
  }

  /** d / 2, truncated toward zero. */
  function Half(d: int): (h: int)
    ensures d >= 0 ==> h >= 0 && d - 1 <= 2 * h <= d
    ensures d < 0 ==> h <= 0 && d <= 2 * h <= d + 1
  {
    if d < 0 then -((-d) / 2) else d / 2
  }

  /** The jitter draws below d/2 + 1, which must be positive: it panics for a maximum below -1 ns. */
  predicate CanWait(max: int, retryAfter: int) {
    retryAfter > 0 || max >= -1
  }

  /** Exactly when a wait does not panic, by the bound the jitter draws below. */
  lemma {:induction false} WhenItCanWait(min: int, max: int, attempt: nat, retryAfter: int)
    ensures CanWait(max, retryAfter) <==> retryAfter > 0 || Half(Backoff(min, max, attempt)) + 1 > 0
  {
  }

  /** How long `wait` sleeps; `random` is the generator's next number. */
  function Wait(min: int, max: int, attempt: nat, retryAfter: int, random: nat): int
    requires CanWait(max, retryAfter)
  {
    if retryAfter > 0 then retryAfter
    else
      var half := Half(Backoff(min, max, attempt));
      half + random % (half + 1)
  }

  /** A Retry-After is honoured to the nanosecond; without one the wait is any time from half the backoff
      to twice that. */
  lemma {:induction false} WaitRange(min: int, max: int, attempt: nat, retryAfter: int, random: nat)
    requires CanWait(max, retryAfter)
    ensures retryAfter > 0 ==> Wait(min, max, attempt, retryAfter, random) == retryAfter
    ensures retryAfter <= 0 ==>
              var half := Half(Backoff(min, max, attempt));
              && half <= Wait(min, max, attempt, retryAfter, random) <= 2 * half
              && forall k: nat :: k <= half ==> Wait(min, max, attempt, retryAfter, k) == half + k
  {
    hide Backoff;
    WhenItCanWait(min, max, attempt, retryAfter);
    if retryAfter <= 0 {
      var half := Half(Backoff(min, max, attempt));
      forall k: nat | k <= half ensures Wait(min, max, attempt, retryAfter, k) == half + k {
        assert k % (half + 1) == k;
      }
    }
  }

  // ── the backoff is the exponential one, despite the wrap-around ────────────

  lemma {:induction false} Pow2Add(a: nat, b: nat)
    ensures Pow2(a + b) == Pow2(a) * Pow2(b)
  {
    if a > 0 {
      Pow2Add(a - 1, b);
      assert Pow2(a + b) == 2 * (Pow2(a - 1) * Pow2(b));
    }
  }

  lemma {:induction false} Pow2Mono(a: nat, b: nat)
    requires a <= b
    ensures Pow2(a) <= Pow2(b)
  {
    if a < b {
      Pow2Mono(a, b - 1);
    }
  }

  lemma {:induction false} TwoTo63()
    ensures Pow2(63) == TWO63 && Pow2(64) == TWO64
  {
    assert Pow2(8) == 256;
    Pow2Add(8, 8);
    Pow2Add(16, 16);
    Pow2Add(32, 32);
    assert Pow2(64) == 2 * Pow2(63);
  }

  /** The exponential backoff the wait is documented to have. */
  function Exponential(min: int, max: int, attempt: nat): int {
    if min * Pow2(attempt) < max then min * Pow2(attempt) else max
  }

  predicate IsRight(min: int, max: int, attempt: nat) {
    Backoff(min, max, attempt) == Exponential(min, max, attempt)
  }

  predicate BitClear(u: int, j: nat) {
    (u / Pow2(j)) % 2 == 0
  }

  /** With bit j of u clear and higher ones set, the shift that drops those leaves no less than max. */
  predicate LeavesEnough(u: int, j: nat, max: int)
    requires j <= 63
  {
    u >= Pow2(j) && BitClear(u, j) ==> (u % Pow2(j)) * Pow2(63 - j) >= max
  }

  lemma {:induction false} WrapOf(a: int, b: int, x: int)
    requires 0 <= x < TWO63 && 0 <= b <= 1
    ensures Wrap64(TWO64 * a + TWO63 * b + x) == x - TWO63 * b
  {
    var y := TWO63 * b + x;
    assert (TWO64 * a + y) % TWO64 == y;
  }

  lemma {:induction false} SplitProduct(p: int, h: int, r: int, q: int)
    ensures (p * h + r) * q == (p * q) * h + r * q
  {
  }

  lemma {:induction false} Below(r: int, p: int, q: int)
    requires 0 <= r < p && q >= 1
    ensures 0 <= r * q < p * q
  {
  }

  /** The shift that moves bit j of u to the sign bit. */
  lemma {:induction false} WrapAt(u: int, j: nat)
    requires u >= 1 && j <= 63
    ensures Pow2(j) * Pow2(63 - j) == TWO63
    ensures 0 <= (u % Pow2(j)) * Pow2(63 - j) < TWO63
    ensures Wrap64(u * Pow2(63 - j)) == (u % Pow2(j)) * Pow2(63 - j) - (if BitClear(u, j) then 0 else TWO63)
  {
    hide Pow2, Wrap64;
    TwoTo63();
    Pow2Add(j, 63 - j);
    DivMod(u, Pow2(j));
    WrapParts(u, Pow2(j), Pow2(63 - j), u / Pow2(j), u % Pow2(j));
  }

  lemma {:induction false} DivMod(u: int, p: int)
    requires p >= 1
    ensures u == p * (u / p) + u % p && 0 <= u % p < p
  {
  }

  lemma {:induction false} WrapParts(u: int, p: int, q: int, h: int, r: int)
    requires u == p * h + r && 0 <= r < p && q >= 1 && p * q == TWO63
    ensures 0 <= r * q < TWO63
    ensures Wrap64(u * q) == r * q - (if h % 2 == 0 then 0 else TWO63)
  {
    hide Wrap64;
    SplitProduct(p, h, r, q);
    Below(r, p, q);
    Halves(h);
    WrapOf(h / 2, h % 2, r * q);
  }

  lemma {:induction false} Halves(h: int)
    ensures TWO63 * h == TWO64 * (h / 2) + TWO63 * (h % 2)
  {
  }

  /** What an odd u leaves below a bit is odd. */
  lemma {:induction false} OddRest(u: int, j: nat)
    requires u >= 1 && u % 2 == 1 && BitClear(u, j)
    ensures u % Pow2(j) >= 1
  {
    hide BitClear;
    if j > 0 {
      var p := Pow2(j);
      DivMod(u, p);
      EvenPart(Pow2(j - 1), u / p, u % p);
      hide Pow2;
      assert p == 2 * Pow2(j - 1);
    } else {
      ClearIsEven(u);
    }
  }

  lemma {:induction false} ClearIsEven(u: int)
    requires BitClear(u, 0)
    ensures u % 2 == 0
  {
    assert Pow2(0) == 1;
  }

  lemma {:induction false} EvenPart(m: int, h: int, r: int)
    ensures ((2 * m) * h + r) % 2 == r % 2
  {
    assert (2 * m) * h == 2 * (m * h);
  }

  lemma {:induction false} Larger(u: int, p: int, q: int)
    requires q >= 1
    ensures u >= p ==> u * q >= p * q
    ensures u < p ==> u * q < p * q
  {
  }

  /** The cases of one shift, in terms of x = u * 2^n, its rest below 2^63 and the wrapped w. */
  lemma {:induction false} ShiftCases(x: int, rest: int, w: int, fits: bool, clear: bool, max: int)
    requires 1 <= max < TWO63 && 0 <= rest < TWO63 && w == rest - (if clear then 0 else TWO63)
    requires if fits then clear && x == rest >= 1 else x >= TWO63 && (clear ==> rest >= 1)
    ensures (if w > max || w <= 0 then max else w) == (if x < max then x else max) <==> fits || !clear || rest >= max
  {
  }

  /** One shift: the capped wrapped value is right exactly when it leaves enough. */
  lemma {:induction false} RightAt(u: int, j: nat, max: int)
    requires u >= 1 && u % 2 == 1 && j <= 63 && 1 <= max < TWO63
    ensures var x := u * Pow2(63 - j);
            (if Wrap64(x) > max || Wrap64(x) <= 0 then max else Wrap64(x)) == (if x < max then x else max)
            <==> LeavesEnough(u, j, max)
  {
    WrapAt(u, j);
    hide Pow2, Wrap64;
    var p, q := Pow2(j), Pow2(63 - j);
    var rest := (u % p) * q;
    Larger(u, p, q);
    Larger(u, 1, q);
    if u < p {
      Small(u, p);
    } else if BitClear(u, j) {
      OddRest(u, j);
      Larger(u % p, 1, q);
    }
    hide BitClear;
    ShiftCases(u * q, rest, Wrap64(u * q), u < p, BitClear(u, j), max);
  }

  lemma {:induction false} Small(u: int, p: int)
    requires 0 <= u < p
    ensures u % p == u && u / p == 0
  {
  }

  lemma {:induction false} ShiftedOut(u: int, n: nat)
    requires n >= 64
    ensures Wrap64(u * Pow2(n)) == 0
  {
    hide Pow2;
    TwoTo63();
    Pow2Add(64, n - 64);
    assert u * (TWO64 * Pow2(n - 64)) == TWO64 * (u * Pow2(n - 64));
    WrapOf(u * Pow2(n - 64), 0, 0);
  }

  lemma {:induction false} Regroup(u: int, a: int, b: int, p: int)
    requires p == a * b
    ensures u * a * b == u * p
  {
    assert u * a * b == u * (a * b);
  }

  /** One attempt. */
  lemma {:induction false} RightAtAttempt(u: int, s: nat, max: int, attempt: nat)
    requires u >= 1 && u % 2 == 1 && 1 <= max < TWO63
    ensures IsRight(u * Pow2(s), max, attempt)
            <==> s + attempt > 63 || LeavesEnough(u, 63 - (s + attempt), max)
  {
    hide Pow2, Wrap64, LeavesEnough;
    var n := s + attempt;
    Pow2Add(s, attempt);
    Regroup(u, Pow2(s), Pow2(attempt), Pow2(n));
    if n > 63 {
      ShiftedOut(u, n);
      TwoTo63();
      Pow2Mono(63, n);
      Larger(u, 1, Pow2(n));
    } else {
      RightAt(u, 63 - n, max);
    }
  }

  /**
   Exactly when the wait is the exponential backoff for every attempt, despite the wrap-around, for
   all positive bounds min = u * 2^s, u odd: wherever a bit of u below its top one is clear, what u
   has below that bit, shifted as far, is no less than max.
   */
  lemma {:induction false} WhenBackoffIsExponential(u: int, s: nat, max: int)
    requires u >= 1 && u % 2 == 1 && s <= 63 && 1 <= max < TWO63
    ensures (forall attempt: nat :: IsRight(u * Pow2(s), max, attempt))
            <==> forall j: nat :: j <= 63 - s ==> LeavesEnough(u, j, max)
  {
    hide IsRight, LeavesEnough, Pow2;
    var min := u * Pow2(s);
    if forall j: nat :: j <= 63 - s ==> LeavesEnough(u, j, max) {
      forall attempt: nat ensures IsRight(min, max, attempt) {
        RightAtAttempt(u, s, max, attempt);
      }
    } else {
      var j: nat :| j <= 63 - s && !LeavesEnough(u, j, max);
      RightAtAttempt(u, s, max, 63 - s - j);
      assert !IsRight(min, max, 63 - s - j);
    }
  }

  /** Every positive bound is of that form. */
  lemma {:induction false} OddPart(min: int) returns (u: int, s: nat)
    requires 1 <= min < TWO63
    ensures min == u * Pow2(s) && u >= 1 && u % 2 == 1 && s <= 63
  {
    u, s := min, 0;
    while u % 2 == 0
      invariant u >= 1 && min == u * Pow2(s)
      decreases u
    {
      Regroup(u / 2, 2, Pow2(s), Pow2(s + 1));
      u, s := u / 2, s + 1;
    }
    if s > 63 {
      TwoTo63();
      Pow2Mono(63, s);
      Larger(u, 1, Pow2(s));
    }
  }

  /** In particular where u * max fits into an int64, as the default bounds do. */
  lemma {:induction false} BackoffIsExponential(u: int, s: nat, max: int, attempt: nat)
    requires u >= 1 && u % 2 == 1 && s <= 63 && max >= 1 && u * max < TWO63
    ensures IsRight(u * Pow2(s), max, attempt)
  {
    hide IsRight, Pow2;
    assert max < TWO63 by {
      Larger(u, 1, max);
    }
    forall j: nat | j <= 63 - s ensures LeavesEnough(u, j, max) {
      if u >= Pow2(j) && BitClear(u, j) {
        WrapAt(u, j);
        OddRest(u, j);
        EnoughLeft(u, max, Pow2(j), Pow2(63 - j), u % Pow2(j));
      }
    }
    WhenBackoffIsExponential(u, s, max);
  }

  lemma {:induction false} EnoughLeft(u: int, max: int, p: int, q: int, r: int)
    requires u >= p >= 1 && max >= 1 && u * max < p * q && r >= 1 && q >= 1
    ensures r * q >= max
  {
    Larger(u, p, max);
    Larger(max, q, p);
    assert max * p == p * max && q * p == p * q;
    Larger(r, 1, q);
  }

  /** With the default bounds the wait lies between half the exponential backoff and all of it. */
  lemma {:induction false} DefaultWait(attempt: nat, random: nat)
    ensures var bound := Exponential(DEFAULT_MIN, DEFAULT_MAX, attempt);
            bound / 2 <= Wait(DEFAULT_MIN, DEFAULT_MAX, attempt, 0, random) <= bound
  {
    assert Pow2(8) == 256;
    BackoffIsExponential(1_953_125, 8, DEFAULT_MAX, attempt);
  }

  /** Bounds for which the wrap-around shows: the exact backoff is over the maximum, and the wait is a
      fraction of it. */
  lemma {:induction false} WrapShowsForOtherBounds()
    ensures var min, max, attempt := 0x2_0000_0001, TWO63 - 1, 31;
            min * Pow2(attempt) > 2 * TWO63 && Backoff(min, max, attempt) == 0x8000_0000
  {
    assert Pow2(8) == 256 && Pow2(7) == 128;
    Pow2Add(8, 8);
    Pow2Add(8, 7);
    Pow2Add(16, 15);
  }

  // ── the loop ───────────────────────────────────────────────────────────────

  /** What one request comes to. */
  datatype Attempt =
    | NetworkError(ctxEnded: bool)
    | ReadError
    | Response(status: int, retryAfter: int, decodes: bool)

  datatype Outcome = Success | Failure(last: Attempt) | Cancelled | Panicked

  datatype Client = Client(maxRetries: int, minBackoff: int, maxBackoff: int)

  /**
   `do`: request number i comes to attempts(i), the context ends during the wait after it when
   cancels(i), and the jitter is random(i). Only a network error while the context lives, a 429 and a
   5xx are tried again, maxRetries times at most.
   */
  method Do(c: Client, attempts: nat -> Attempt, cancels: nat -> bool, random: nat -> nat)
    returns (r: Outcome, sent: nat, waits: seq<int>)
    ensures 1 <= sent <= (if c.maxRetries < 0 then 0 else c.maxRetries) + 1
    ensures forall i :: 0 <= i < sent - 1 ==> TriedAgain(attempts(i)) && !cancels(i)
    ensures r.Cancelled? ==> TriedAgain(attempts(sent - 1)) && cancels(sent - 1) && sent <= c.maxRetries
    ensures r.Success? <==> var a := attempts(sent - 1); a.Response? && 200 <= a.status < 300 && a.decodes
    ensures r.Failure? ==> r.last == attempts(sent - 1) && (!TriedAgain(r.last) || sent > c.maxRetries)
    ensures r.Panicked? ==>
              TriedAgain(attempts(sent - 1)) && sent <= c.maxRetries
              && !CanWait(c.maxBackoff, RetryAfter(attempts(sent - 1)))
    ensures |waits| == sent - 1
    ensures forall i :: 0 <= i < |waits| ==>
              CanWait(c.maxBackoff, RetryAfter(attempts(i)))
              && waits[i] == Wait(c.minBackoff, c.maxBackoff, i, RetryAfter(attempts(i)), random(i))
  {
    var attempt := 0;
    waits := [];
    while true
      invariant 0 <= attempt == |waits|
      invariant attempt > 0 ==> attempt <= c.maxRetries
      invariant forall i :: 0 <= i < attempt ==> TriedAgain(attempts(i)) && !cancels(i)
      invariant forall i :: 0 <= i < |waits| ==>
                  CanWait(c.maxBackoff, RetryAfter(attempts(i)))
                  && waits[i] == Wait(c.minBackoff, c.maxBackoff, i, RetryAfter(attempts(i)), random(i))
      decreases c.maxRetries - attempt
    {
      var a := attempts(attempt);
      sent := attempt + 1;
      var after := 0;
      match a {
        case NetworkError(ctxEnded) =>
          if ctxEnded || attempt >= c.maxRetries {
            return Failure(a), sent, waits;
          }
        case ReadError =>
          return Failure(a), sent, waits;
        case Response(status, retryAfter, decodes) =>
          if 200 <= status < 300 {
            if decodes {
              return Success, sent, waits;
            }
            return Failure(a), sent, waits;
          }
          var retryable := status == 429 || status >= 500;
          if !retryable || attempt >= c.maxRetries {
            return Failure(a), sent, waits;
          }
          after := retryAfter;
      }
      if !CanWait(c.maxBackoff, after) {
        return Panicked, sent, waits;
      }
      if cancels(attempt) {
        return Cancelled, sent, waits;
      }
      waits := waits + [Wait(c.minBackoff, c.maxBackoff, attempt, after, random(attempt))];
      attempt := attempt + 1;
    }
  }

  /** What the client is documented to try again: rate limits, server errors, and a connection that fails
      while the caller still waits. */
  ghost predicate TriedAgain(a: Attempt) {
    match a
    case NetworkError(ctxEnded) => !ctxEnded
    case ReadError => false
    case Response(status, _, _) => status == 429 || status >= 500
  }

  /** The Retry-After of an answer, 0 without one. */
  ghost function RetryAfter(a: Attempt): int {
    if a.Response? then a.retryAfter else 0
  }

  function Sum(s: seq<int>): int {
    if s == [] then 0 else Sum(s[..|s| - 1]) + s[|s| - 1]
  }

  /**
   Without Retry-After, n retries with the default bounds wait at most 500 ms * (2^n - 1), and never
   more than n times 30 s, in all.
   */
  lemma {:induction false} TotalWaitBounded(waits: seq<int>, random: nat -> nat)
    requires forall i :: 0 <= i < |waits| ==> waits[i] == Wait(DEFAULT_MIN, DEFAULT_MAX, i, 0, random(i))
    ensures Sum(waits) <= 500_000_000 * (Pow2(|waits|) - 1)
    ensures Sum(waits) <= 30_000_000_000 * |waits|
  {
    if waits != [] {
      var n := |waits| - 1;
      TotalWaitBounded(waits[..n], random);
      DefaultWait(n, random(n));
      assert waits[n] <= DEFAULT_MIN * Pow2(n);
      assert Pow2(|waits|) == 2 * Pow2(n);
    }
  }
}
