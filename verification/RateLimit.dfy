/** The per-agent fixed-window rate limiter. Instants are nanoseconds, windows whole seconds. */
module RateLimit {

  const SECOND: nat := 1_000_000_000

  datatype Window = Window(start: nat, count: nat)

  /** Saturating difference, truncated to whole seconds. */
  function ElapsedSecs(now: nat, start: nat): nat {
    (if now >= start then now - start else 0) / SECOND
  }

  /** One call: the verdict and the window after it. */
  function Step(w: Window, now: nat, max: nat, secs: nat): (bool, Window) {
    if ElapsedSecs(now, w.start) >= secs then (true, Window(now, 1))
    else (w.count + 1 <= max, Window(w.start, w.count + 1))
  }

  class Limiter {
    var window: Window
    const max: nat
    const secs: nat

    constructor (now: nat, max: nat, secs: nat)
      ensures window == Window(now, 0) && this.max == max && this.secs == secs
    {
      window, this.max, this.secs := Window(now, 0), max, secs;
    }

    /** The body of `check_rate_limit` under the limiter's mutex. */
    method Check(now: nat) returns (ok: bool)
      modifies this`window
      ensures (ok, window) == Step(old(window), now, max, secs)
      ensures ok <==> ElapsedSecs(now, old(window).start) >= secs || old(window).count < max
    {
      var elapsed := ElapsedSecs(now, window.start);
      if elapsed >= secs {
        window := Window(now, 1);
        return true;
      }
      window := window.(count := window.count + 1);
      ok := window.count <= max;
    }
  }

  /** The instants at which a limiter was called, latest last. */
  datatype Calls = Boot(at: nat) | Then(past: Calls, at: nat)

  ghost predicate Ordered(calls: Calls) {
    calls.Then? ==> Ordered(calls.past) && calls.past.at <= calls.at
  }

  function WindowAfter(calls: Calls, max: nat, secs: nat): Window {
    match calls
    case Boot(at) => Window(at, 0)
    case Then(past, at) => Step(WindowAfter(past, max, secs), at, max, secs).1
  }

  /** The verdict on the latest call. */
  predicate Passes(calls: Calls, max: nat, secs: nat)
    requires calls.Then?
  {
    Step(WindowAfter(calls.past, max, secs), calls.at, max, secs).0
  }

  /** Calls admitted at or after `from`. */
  function Admitted(calls: Calls, max: nat, secs: nat, from: nat): nat {
    match calls
    case Boot(_) => 0
    case Then(past, at) =>
      Admitted(past, max, secs, from) + if from <= at && Passes(calls, max, secs) then 1 else 0
  }

  /** Calls made since the current window opened: the opening call and all later ones. */
  function SinceOpening(calls: Calls, max: nat, secs: nat): nat {
    match calls
    case Boot(_) => 0
    case Then(past, at) =>
      if ElapsedSecs(at, WindowAfter(past, max, secs).start) >= secs then 1
      else SinceOpening(past, max, secs) + 1
  }

  /** The truncation to seconds is exact: a window ends when its full length in nanoseconds has passed. */
  lemma ElapsedIsExact(now: nat, start: nat, secs: nat)
    ensures ElapsedSecs(now, start) >= secs <==> (secs == 0 || now >= start + secs * 1_000_000_000)
  {
  }

  lemma {:induction false} WindowStartBounds(calls: Calls, max: nat, secs: nat)
    requires Ordered(calls)
    ensures WindowAfter(calls, max, secs).start <= calls.at
    ensures WindowAfter(calls, max, secs).count == SinceOpening(calls, max, secs)
    ensures calls.Then? && secs >= 1 ==> calls.at < WindowAfter(calls, max, secs).start + secs * SECOND
  {
    if calls.Then? {
      WindowStartBounds(calls.past, max, secs);
      ElapsedIsExact(calls.at, WindowAfter(calls.past, max, secs).start, secs);
    }
  }

  function Least(a: nat, b: nat): nat {
    if a <= b then a else b
  }

  lemma {:induction false} MulMonotone(a: nat, b: nat, m: nat)
    ensures a <= b ==> a * m <= b * m
    ensures a < b ==> a * m + m <= b * m
    decreases b
  {
    if a < b {
      MulMonotone(a, b - 1, m);
      assert b * m == (b - 1) * m + m;
    }
  }

  lemma DivBound(n: nat, width: nat, q: nat)
    requires 1 <= width && q * width <= n
    ensures q <= n / width
  {
    MulMonotone(n / width, q, width);
  }

  /** How many limits the windows up to one opened at `start` can have spent since `from`. */
  function Limits(start: nat, from: nat, width: nat): nat
    requires width >= 1
  {
    if start < from then 0 else (start - from) / width + 1
  }

  /** Opening a window a full width later allows for one more limit. */
  lemma NextLimit(from: nat, start: nat, next: nat, width: nat)
    requires 1 <= width && start + width <= next && from <= next
    ensures Limits(start, from, width) + 1 <= Limits(next, from, width)
  {
    if from <= start {
      var q := (start - from) / width;
      assert (q + 1) * width == q * width + width;
      DivBound(next - from, width, q + 1);
    }
  }

  /**
   * What one run of the limiter keeps: counting from `from`, everything before the current window fits
   * in one limit per window that overlaps the interval, and the current window adds at most its share.
   */
  lemma {:induction false} WindowBudget(calls: Calls, max: nat, secs: nat, from: nat)
    requires Ordered(calls) && max >= 1 && secs >= 1
    ensures var w := WindowAfter(calls, max, secs);
            Admitted(calls, max, secs, from) <= Least(w.count, max) + Limits(w.start, from, secs * SECOND) * max
  {
    if calls.Then? {
      WindowBudget(calls.past, max, secs, from);
      if ElapsedSecs(calls.at, WindowAfter(calls.past, max, secs).start) >= secs {
        if calls.at < from {
          AdmittedFromLater(calls, max, secs, from);
        } else {
          ResetBudget(calls, max, secs, from);
        }
      }
    }
  }

  lemma ResetBudget(calls: Calls, max: nat, secs: nat, from: nat)
    requires calls.Then? && max >= 1 && secs >= 1 && from <= calls.at
    requires ElapsedSecs(calls.at, WindowAfter(calls.past, max, secs).start) >= secs
    requires var w := WindowAfter(calls.past, max, secs);
             Admitted(calls.past, max, secs, from) <= Least(w.count, max) + Limits(w.start, from, secs * SECOND) * max
    ensures Admitted(calls, max, secs, from) <= 1 + Limits(calls.at, from, secs * SECOND) * max
  {
    var w, width := WindowAfter(calls.past, max, secs), secs * SECOND;
    ElapsedIsExact(calls.at, w.start, secs);
    NextLimit(from, w.start, calls.at, width);
    MulMonotone(Limits(w.start, from, width), Limits(calls.at, from, width), max);
  }

  lemma {:induction false} AdmittedFromLater(calls: Calls, max: nat, secs: nat, from: nat)
    requires Ordered(calls) && calls.at < from
    ensures Admitted(calls, max, secs, from) == 0
  {
    if calls.Then? {
      AdmittedFromLater(calls.past, max, secs, from);
    }
  }

  /** The limit for an interval of `length` nanoseconds: two windows more than it can contain. */
  function IntervalLimit(length: nat, max: nat, secs: nat): nat
    requires secs >= 1
  {
    (length / (secs * SECOND) + 2) * max
  }

  /** Putting the windows together. */
  lemma TotalLimit(admitted: nat, share: nat, limits: nat, windows: nat, max: nat)
    requires admitted <= share + limits * max && share <= max && limits + 1 <= windows
    ensures admitted <= windows * max
  {
    MulMonotone(limits, windows, max);
  }

  /** Any interval of length `length` ending at the latest call admits at most (length / window + 2) limits. */
  lemma IntervalBound(calls: Calls, max: nat, secs: nat, from: nat, length: nat)
    requires Ordered(calls) && max >= 1 && secs >= 1 && calls.at <= from + length
    ensures Admitted(calls, max, secs, from) <= IntervalLimit(length, max, secs)
  {
    var w, width := WindowAfter(calls, max, secs), secs * SECOND;
    WindowBudget(calls, max, secs, from);
    WindowStartBounds(calls, max, secs);
    LimitsWithin(w.start, from, width, length);
    TotalLimit(Admitted(calls, max, secs, from), Least(w.count, max), Limits(w.start, from, width),
               length / width + 2, max);
  }

  lemma LimitsWithin(start: nat, from: nat, width: nat, length: nat)
    requires width >= 1 && start <= from + length
    ensures Limits(start, from, width) + 1 <= length / width + 2
  {
    if from <= start {
      DivBound(length, width, (start - from) / width);
    }
  }

  /** A call is denied exactly when its window is still open and has already taken its limit of calls. */
  lemma DeniedExactlyWhenWindowFull(calls: Calls, max: nat, secs: nat)
    requires calls.Then? && Ordered(calls) && secs >= 1
    ensures !Passes(calls, max, secs) <==>
            && calls.at < WindowAfter(calls.past, max, secs).start + secs * SECOND
            && SinceOpening(calls.past, max, secs) >= max
  {
    WindowStartBounds(calls.past, max, secs);
    ElapsedIsExact(calls.at, WindowAfter(calls.past, max, secs).start, secs);
  }

  /** `later` is `calls` followed only by denied calls. */
  ghost predicate OnlyDeniedSince(calls: Calls, later: Calls, max: nat, secs: nat) {
    later == calls || (later.Then? && !Passes(later, max, secs) && OnlyDeniedSince(calls, later.past, max, secs))
  }

  lemma {:induction false} DenialsKeepWindow(calls: Calls, later: Calls, max: nat, secs: nat)
    requires OnlyDeniedSince(calls, later, max, secs)
    ensures WindowAfter(later, max, secs).start == WindowAfter(calls, max, secs).start
  {
    if later != calls {
      DenialsKeepWindow(calls, later.past, max, secs);
    }
  }

  /** Denied calls never postpone the reset: after a denial, the first call a full window later passes
      however many denied calls lie between. */
  lemma PassesAfterDenials(denied: Calls, later: Calls, now: nat, max: nat, secs: nat)
    requires Ordered(denied) && denied.Then? && !Passes(denied, max, secs)
    requires OnlyDeniedSince(denied, later, max, secs)
    requires now >= denied.at + secs * SECOND
    ensures Passes(Then(later, now), max, secs)
  {
    DenialsKeepWindow(denied, later, max, secs);
    WindowStartBounds(denied, max, secs);
    ElapsedIsExact(now, WindowAfter(later, max, secs).start, secs);
  }

  /** The condition is needed: with limit 1 and one-second windows, a call a full second after a denial is
      denied when a reset in between gave the new window to someone else. */
  lemma DenialAgainAfterReset()
    ensures var first := Then(Then(Boot(0), 0), SECOND / 2);
            var reset := Then(first, SECOND);
            && !Passes(first, 1, 1) && Passes(reset, 1, 1)
            && !Passes(Then(reset, SECOND / 2 + SECOND), 1, 1)
  {
    var first := Then(Then(Boot(0), 0), SECOND / 2);
    assert WindowAfter(first.past, 1, 1) == Window(0, 1);
    assert WindowAfter(first, 1, 1) == Window(0, 2);
    assert WindowAfter(Then(first, SECOND), 1, 1) == Window(SECOND, 1);
  }
}
