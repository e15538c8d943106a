/** Client runs of a breaker that replay the repository's unit tests with a
    fixed current time; each states as its contract what the test asserts. */
module BreakerScenarios {
  import opened RollingWindow
  import opened Breakers

  /** A fresh breaker is neither open nor half-open, and a first attempt
      passes. */
  method InitialState(now: int) returns (open: bool, halfOpen: bool, run: Outcome)
    ensures !open && !halfOpen && run == Pass
  {
    var b := new Breaker(5, service := Some("test"));
    open, halfOpen := b.Open(now), b.HalfOpen(now);
    run := b.Run(now);
  }

  /** With `reenableAfter = 10`, a trip 5 seconds ago is open and a trip 11
      seconds ago is half-open. */
  method StateAroundReenable(now: int) returns (openAt5: bool, halfOpenAt5: bool,
                                                 openAt11: bool, halfOpenAt11: bool)
    ensures openAt5 && !halfOpenAt5
    ensures !openAt11 && halfOpenAt11
  {
    var b := new Breaker(5, service := Some("test"), reenableAfter := 10);
    b.lastOpen := Some(now - 5);
    openAt5, halfOpenAt5 := b.Open(now), b.HalfOpen(now);
    b.lastOpen := Some(now - 11);
    openAt11, halfOpenAt11 := b.Open(now), b.HalfOpen(now);
  }

  /** `n` increments of one window within the same second return 1, 2, ..., n. */
  method SameSecondCounts(now: int, n: nat) returns (counts: seq<int>)
    ensures |counts| == n
    ensures forall i :: 0 <= i < n ==> counts[i] == i + 1
  {
    var b := new Breaker(5, service := Some("test"));
    counts := [];
    var i := 0;
    while i < n
      invariant 0 <= i <= n
      invariant b.Valid()
      invariant |b.errors| == i && forall k :: 0 <= k < i ==> b.errors[k] == now
      invariant |counts| == i && forall k :: 0 <= k < i ==> counts[k] == k + 1
    {
      RollSameSecond(b.errors, now, b.duration);
      var c := b.IncrementRollingWindow(Errors, now);
      counts := counts + [c];
      i := i + 1;
    }
  }

  /** With a one-second window, an error recorded at `t` is gone two seconds
      later: both increments return 1. */
  method Eviction(t: int) returns (first: int, second: int)
    ensures first == 1 && second == 1
  {
    var b := new Breaker(5, service := Some("test"), duration := 1);
    first := b.IncrementRollingWindow(Errors, t);
    RollEvicts(b.errors, t + 2, 1, t);
    second := b.IncrementRollingWindow(Errors, t + 2);
    assert b.errors == [t + 2];
  }

  /** With an absolute threshold of 5, a count of 6 trips and 4 does not. */
  method AbsoluteThreshold() returns (six: Result<bool>, four: Result<bool>)
    ensures six == Ok(true) && four == Ok(false)
  {
    var b := new Breaker(5, service := Some("test"));
    six, four := b.ShouldOpen(6), b.ShouldOpen(4);
  }

  /** One error against a threshold of 5 leaves the breaker closed. */
  method SingleError(now: int) returns (open: bool, halfOpen: bool)
    ensures !open && !halfOpen
  {
    var b := new Breaker(5, service := Some("test"));
    RollSameSecond(b.errors, now, b.duration);
    var _ := b.ProcessError(now);
    assert |b.errors| == 1 && b.lastOpen == None;
    open, halfOpen := b.Open(now), b.HalfOpen(now);
  }

  /** Two errors against a threshold of 2 trip the breaker at `now`. */
  method TripAfterTwoErrors(now: int) returns (open: bool, halfOpen: bool, lastOpen: Option<int>)
    ensures open && !halfOpen && lastOpen == Some(now)
  {
    var b := new Breaker(2, service := Some("test"));
    RollSameSecond(b.errors, now, b.duration);
    var _ := b.ProcessError(now);
    assert b.errors == [now] && b.lastOpen == None;
    RollSameSecond(b.errors, now, b.duration);
    var _ := b.ProcessError(now);
    assert |b.errors| == 2 && b.lastOpen == Some(now);
    open, halfOpen, lastOpen := b.Open(now), b.HalfOpen(now), b.lastOpen;
  }

  /** A success two seconds after a trip, with `reenableAfter = 1`, clears
      the trip time and the error window. */
  method HalfOpenSuccess(now: int) returns (wasHalfOpen: bool, lastOpen: Option<int>,
                                            halfOpen: bool, errorCount: int)
    ensures wasHalfOpen && lastOpen == None && !halfOpen && errorCount == 0
  {
    var b := new Breaker(1, service := Some("test"), reenableAfter := 1);
    b.lastOpen := Some(now - 2);
    wasHalfOpen := b.HalfOpen(now);
    b.ProcessSuccess(now);
    lastOpen, halfOpen, errorCount := b.lastOpen, b.HalfOpen(now), |b.errors|;
  }

  /** Percentage strategy at 10% over 60 attempts: five errors stay closed,
      the sixth opens. */
  method PercentageTrip(now: int) returns (openAfterFive: bool, openAfterSix: bool)
    ensures !openAfterFive && openAfterSix
  {
    var b := new Breaker(10, service := Some("test"), duration := 60, strategy := Percentage);
    RecordSameSecondRuns(b, now, 60);
    var i := 0;
    while i < 5
      invariant 0 <= i <= 5
      invariant b.Valid() && b.lastOpen == None && |b.runs| == 60
      invariant |b.errors| == i && forall k :: 0 <= k < i ==> b.errors[k] == now
    {
      RollSameSecond(b.errors, now, b.duration);
      var _ := b.ProcessError(now);
      i := i + 1;
    }
    openAfterFive := b.Open(now);
    RollSameSecond(b.errors, now, b.duration);
    var _ := b.ProcessError(now);
    openAfterSix := b.Open(now);
  }

  /** `n` attempts in the second `now` on a breaker with no attempts yet. */
  method RecordSameSecondRuns(b: Breaker, now: int, n: nat)
    requires b.Valid() && b.runs == [] && b.duration >= 0
    modifies b
    ensures b.Valid() && |b.runs| == n && forall k :: 0 <= k < n ==> b.runs[k] == now
    ensures b.errors == old(b.errors) && b.lastOpen == old(b.lastOpen)
  {
    var i := 0;
    while i < n
      invariant 0 <= i <= n
      invariant b.Valid() && b.errors == old(b.errors) && b.lastOpen == old(b.lastOpen)
      invariant |b.runs| == i && forall k :: 0 <= k < i ==> b.runs[k] == now
    {
      RollSameSecond(b.runs, now, b.duration);
      var _ := b.IncrementRollingWindow(Runs, now);
      i := i + 1;
    }
  }
}
