/** The circuit breaker: a trip timestamp and two rolling windows (attempts
    and errors), from which the open and half-open states are derived for a
    given current time.  The clock is not read here: every operation that
    needs the time takes it as `now`, one value per call. */
module Breakers {
  import opened RollingWindow

  datatype Option<T> = None | Some(value: T)

  /** What a breaker reports to its caller instead of an answer. */
  datatype Error =
    | BreakerOpen                       // the call was rejected, nothing was recorded
    | NotImplemented(strategy: string)  // the configured strategy is unknown

  datatype Result<T> = Ok(value: T) | Err(error: Error)

  /** The outcome of an operation that returns nothing on success. */
  datatype Outcome = Pass | Fail(error: Error)

  /** The two windows a breaker keeps, selected by name in the source. */
  datatype Counter = Runs | Errors

  const Absolute: string := "absolute"
  const Percentage: string := "percentage"

  /** The text `key` formats for an optional name: a missing name prints as
      `None`. */
  function NameText(name: Option<string>): string {
    match name
    case None => "None"
    case Some(n) => n
  }

  class Breaker {
    const service: string
    const strategy: string
    /** Length of the rolling windows, in seconds. */
    const duration: int
    /** An error count (absolute) or a percentage (percentage). */
    const threshold: int
    /** Seconds the breaker stays open after a trip. */
    const reenableAfter: int
    /** Attempts needed in the window before the percentage strategy trips. */
    const minimumThreshold: int := 5

    /** When the breaker last tripped; `None` if never, or since a reset. */
    var lastOpen: Option<int>
    /** Timestamps of recent attempts. */
    var runs: seq<int>
    /** Timestamps of recent errors. */
    var errors: seq<int>

    /** Both windows are sorted. */
    ghost predicate Valid()
      reads this
    {
      Sorted(runs) && Sorted(errors)
    }

    constructor (threshold: int, service: Option<string> := None, duration: int := 60,
                 reenableAfter: int := 300, strategy: string := Absolute)
      ensures Valid()
      ensures this.service == (if service.Some? then service.value else "default")
      ensures this.threshold == threshold && this.duration == duration
      ensures this.reenableAfter == reenableAfter && this.strategy == strategy
      ensures lastOpen == None && runs == [] && errors == []
    {
      this.service := if service.Some? then service.value else "default";
      this.strategy := strategy;
      this.duration := duration;
      this.threshold := threshold;
      this.reenableAfter := reenableAfter;
      lastOpen := None;
      runs := [];
      errors := [];
    }

    /** True while the trip is less than `reenableAfter` seconds old. */
    function Open(now: int): (r: bool)
      reads this
      ensures lastOpen == None ==> !r
      ensures lastOpen.Some? ==> (r <==> now - lastOpen.value < reenableAfter)
    {
      match lastOpen
      case None => false
      case Some(t) => t > now - reenableAfter
    }

    /** True once the trip is more than `reenableAfter` seconds old.  Exactly
        `reenableAfter` seconds after a trip the breaker is neither open nor
        half-open. */
    function HalfOpen(now: int): (r: bool)
      reads this
      ensures lastOpen == None ==> !r
      ensures lastOpen.Some? ==> (r <==> now - lastOpen.value > reenableAfter)
      ensures r ==> !Open(now)
      ensures lastOpen.Some? && !r && !Open(now) ==> now - lastOpen.value == reenableAfter
    {
      match lastOpen
      case None => false
      case Some(t) => t < now - reenableAfter
    }

    /** The metrics key for `name` in this breaker's service. */
    function Key(name: Option<string>): (r: string)
      ensures |r| == 9 + |service| + |NameText(name)|
      ensures r[..8] == "breaker-" && r[8..8 + |service|] == service
      ensures r[8 + |service|] == '-' && r[9 + |service|..] == NameText(name)
    {
      "breaker-" + service + "-" + NameText(name)
    }

    /** The absolute strategy counts errors only; the attempt window plays
        no part. */
    function ShouldOpenAbsolute(errorCount: int): (r: bool)
      ensures r <==> errorCount >= threshold
    {
      errorCount >= threshold
    }

    /** Never trips on fewer than `minimumThreshold` attempts; otherwise trips
        when the error percentage `errorCount * 100 / |runs|` reaches the
        threshold.  For an integer threshold, comparing the floor of the
        percentage is the same as comparing the exact quotient, which is the
        cross-multiplied comparison the contract states. */
    function ShouldOpenPercentage(errorCount: int): (r: bool)
      reads this
      ensures |runs| < minimumThreshold ==> !r
      ensures |runs| >= minimumThreshold ==> (r <==> errorCount * 100 >= threshold * |runs|)
    {
      if |runs| < minimumThreshold then false
      else
        FloorQuotientAtLeast(errorCount * 100, |runs|, threshold);
        errorCount * 100 / |runs| >= threshold
    }

    /** The trip decision of the configured strategy. */
    function ShouldOpen(errorCount: int): (r: Result<bool>)
      reads this
      ensures strategy == Absolute ==> r == Ok(errorCount >= threshold)
      ensures strategy == Percentage ==>
                r == Ok(|runs| >= minimumThreshold && errorCount * 100 >= threshold * |runs|)
      ensures strategy != Absolute && strategy != Percentage ==> r == Err(NotImplemented(strategy))
    {
      if strategy == Absolute then Ok(ShouldOpenAbsolute(errorCount))
      else if strategy == Percentage then Ok(ShouldOpenPercentage(errorCount))
      else Err(NotImplemented(strategy))
    }

    /** The window a counter names. */
    function Window(c: Counter): seq<int>
      reads this
    {
      match c
      case Runs => runs
      case Errors => errors
    }

    /** Prunes the named window to `now - duration`, adds `now` to it and
        returns its new length; the other window and the trip time stay. */
    method IncrementRollingWindow(c: Counter, now: int) returns (count: int)
      requires Valid()
      modifies this
      ensures Valid()
      ensures Window(c) == Roll(old(Window(c)), now, duration)
      ensures c == Runs ==> errors == old(errors)
      ensures c == Errors ==> runs == old(runs)
      ensures lastOpen == old(lastOpen)
      ensures count == |Window(c)|
      ensures count == |Keep(old(Window(c)), now - duration)| + 1
    {
      ghost var w := Window(c);
      RollSorted(w, now, duration);
      PruneWindow(c, now - duration);
      AddToWindow(c, now);
      count := |Window(c)|;
    }

    /** Replaces the named window by its entries at or after `cutoff`. */
    method PruneWindow(c: Counter, cutoff: int)
      requires Valid()
      modifies this
      ensures Valid()
      ensures Window(c) == Prune(old(Window(c)), cutoff)
      ensures c == Runs ==> errors == old(errors)
      ensures c == Errors ==> runs == old(runs)
      ensures lastOpen == old(lastOpen)
    {
      PruneSorted(Window(c), cutoff);
      if c == Runs {
        runs := Prune(runs, cutoff);
      } else {
        errors := Prune(errors, cutoff);
      }
    }

    /** Adds `t` to the named window at its sorted position. */
    method AddToWindow(c: Counter, t: int)
      requires Valid()
      modifies this
      ensures Valid()
      ensures Window(c) == Insert(old(Window(c)), t)
      ensures c == Runs ==> errors == old(errors)
      ensures c == Errors ==> runs == old(runs)
      ensures lastOpen == old(lastOpen)
    {
      InsertSpec(Window(c), t);
      if c == Runs {
        runs := Insert(runs, t);
      } else {
        errors := Insert(errors, t);
      }
    }

    /** Stamps the trip time. */
    method Trip(now: int)
      modifies this
      ensures lastOpen == Some(now)
      ensures runs == old(runs) && errors == old(errors)
      ensures reenableAfter > 0 ==> Open(now)
    {
      lastOpen := Some(now);
    }

    /** Back to closed: no trip time and an empty error window. */
    method Reset()
      modifies this
      ensures lastOpen == None && errors == [] && runs == old(runs)
      ensures old(Valid()) ==> Valid()
    {
      lastOpen := None;
      errors := [];
    }

    /** The success hook: a success while half-open resets the breaker;
        otherwise nothing changes. */
    method ProcessSuccess(now: int)
      modifies this
      ensures old(HalfOpen(now)) ==> lastOpen == None && errors == [] && runs == old(runs)
      ensures !old(HalfOpen(now)) ==>
                lastOpen == old(lastOpen) && errors == old(errors) && runs == old(runs)
    {
      if HalfOpen(now) {
        Reset();
      }
    }

    /** The error hook: records `now` in the error window, then trips when
        the breaker was half-open or the strategy says so.  An unknown
        strategy is reported after the error was recorded, and then the trip
        time stays; while half-open the strategy is not consulted. */
    method ProcessError(now: int) returns (r: Outcome)
      requires Valid()
      modifies this
      ensures Valid()
      ensures errors == Roll(old(errors), now, duration) && runs == old(runs)
      ensures old(HalfOpen(now)) ==> r == Pass && lastOpen == Some(now)
      ensures !old(HalfOpen(now)) ==> match ShouldOpen(|errors|)
                case Ok(true) => r == Pass && lastOpen == Some(now)
                case Ok(false) => r == Pass && lastOpen == old(lastOpen)
                case Err(e) => r == Fail(e) && lastOpen == old(lastOpen)
    {
      var count := IncrementRollingWindow(Errors, now);
      r := Pass;
      if HalfOpen(now) {
        Trip(now);
      } else {
        var decision := ShouldOpen(count);
        match decision
        case Ok(trip) =>
          if trip {
            Trip(now);
          }
        case Err(e) =>
          r := Fail(e);
      }
    }

    /** A guarded attempt: rejected with `BreakerOpen` and no change while
        open; otherwise the attempt is recorded in `runs` and the success
        hook runs, which resets a half-open breaker. */
    method Run(now: int) returns (r: Outcome)
      requires Valid()
      modifies this
      ensures Valid()
      ensures old(Open(now)) ==> r == Fail(BreakerOpen) && lastOpen == old(lastOpen)
                                 && runs == old(runs) && errors == old(errors)
      ensures !old(Open(now)) ==> r == Pass && runs == Roll(old(runs), now, duration)
      ensures !old(Open(now)) && old(HalfOpen(now)) ==> lastOpen == None && errors == []
      ensures !old(Open(now)) && !old(HalfOpen(now)) ==>
                lastOpen == old(lastOpen) && errors == old(errors)
    {
      if Open(now) {
        return Fail(BreakerOpen);
      }
      var _ := IncrementRollingWindow(Runs, now);
      ProcessSuccess(now);
      r := Pass;
    }
  }

  /** For a positive divisor, the floor of `x / n` reaches the integer `t`
      exactly when `x` reaches `t * n`. */
  lemma FloorQuotientAtLeast(x: int, n: int, t: int)
    requires n > 0
    ensures x / n >= t <==> x >= t * n
  {
    var q, m := x / n, x % n;
    assert x == q * n + m && 0 <= m < n;
    if q >= t {
      MulMonotone(t, q, n);
    } else {
      MulMonotone(q, t - 1, n);
      assert (t - 1) * n == t * n - n;
    }
  }

  /** Under the absolute strategy, the error hook's trip decision depends on
      the error window alone: it trips when the errors at or after
      `now - duration`, together with the one just recorded, reach the
      threshold, whatever the attempt window holds. */
  lemma AbsoluteCountsWindow(b: Breaker, now: int)
    requires Sorted(b.errors) && b.strategy == Absolute
    ensures b.ShouldOpen(|Roll(b.errors, now, b.duration)|)
            == Ok(|Keep(b.errors, now - b.duration)| + 1 >= b.threshold)
  {
    RollSorted(b.errors, now, b.duration);
  }

  /** Multiplying by a positive number keeps the order. */
  lemma MulMonotone(a: int, b: int, n: int)
    requires a <= b && n > 0
    ensures a * n <= b * n
  {
    assert b * n == a * n + (b - a) * n;
  }

  /** For a fixed service, different names give different keys. */
  lemma KeyInjective(b: Breaker, a: string, c: string)
    requires b.Key(Some(a)) == b.Key(Some(c))
    ensures a == c
  {
    var k1, k2 := b.Key(Some(a)), b.Key(Some(c));
    assert a == k1[9 + |b.service|..];
    assert c == k2[9 + |b.service|..];
  }
}
