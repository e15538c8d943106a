# Circuit breaker, modelled in Dafny

A model of the `Breaker` class of the `breakers` package: a circuit breaker
that records attempts and errors in two rolling windows of whole-second
timestamps, trips by stamping a trip time when its strategy (`absolute` or
`percentage`) says so, and derives from that trip time and the current time
whether it is open (calls are rejected) or half-open (the next outcome decides
between a reset and a new trip).

- `rolling_window.dfy`, module `RollingWindow`: a window is a sorted
  `seq<int>` with duplicates allowed. `Prune` drops the prefix of entries below
  a cutoff, as iterating a sorted list from a minimum does; `Insert` places a
  timestamp after all entries not greater than it, as a sorted list's `add`
  does; `Roll` is one increment (prune to `now - duration`, then insert `now`).
  `Keep`, a plain filter, is the reference that pruning is proved against.
- `breaker.dfy`, module `Breakers`: class `Breaker`. The configuration is a
  set of `const` fields; `lastOpen`, `runs` and `errors` are the mutable
  state. `Open`, `HalfOpen`, `Key`, `ShouldOpen*` are functions reading the
  state; `IncrementRollingWindow` (which replaces the window by its pruned
  copy with `PruneWindow` and then adds to it with `AddToWindow`), `Trip`,
  `Reset`, `ProcessSuccess`, `ProcessError` and `Run` are methods whose
  contracts give the whole new state in terms of the old one. `Valid()` (both windows sorted) is the invariant the
  methods keep.
- `scenarios.dfy`, module `BreakerScenarios`: client methods that replay the
  unit tests in `tests/test_breaker.py` at fixed current times and prove what
  each test asserts; the eviction scenario also proves the half of its test
  that the test file keeps commented out.

The clock is a parameter: every method that needs the time takes `now: int`,
and one call uses one value of it (the source's `increment_rolling_window`
reads the clock twice, and `run` and `process_error` read it in several
property accesses; all of those are the same `now` here).

The model keeps these details of the code:

- Half-open holds when the trip is *more* than `reenable_after` seconds old
  (strict `<` at `breakers/breaker.py:69`). Exactly
  `reenable_after` seconds after a trip the breaker is neither open nor
  half-open: a call is let through, but a success does not reset it and an
  error trips it only if the strategy says so. `HalfOpen` states this case.
- An event at time `t` stays in its window while `t >= now - duration`
  (`breakers/breaker.py:113`), so it is still counted when
  `now - t == duration` and evicted only once `now - t > duration`.
- `run` takes no operation: it only checks the open state, records an
  attempt and runs the success hook; the caller invokes `process_error` on a
  failure.
- An unknown strategy is reported when the trip decision is first needed, after
  the error was already recorded in the error window, and never while half-open
  (the `or` at `breakers/breaker.py:63` does not reach the strategy then).
- The percentage is compared as `error_count * 100 / len(runs) >= threshold`.
  For a positive divisor and an integer threshold the floor of the quotient
  reaches the threshold exactly when the exact quotient does, so integer and
  true division agree; `ShouldOpenPercentage` computes the floor and its
  contract states the cross-multiplied comparison.

## Model

| member | source | states |
|---|---|---|
| `RollingWindow.FirstAtLeast` | breakers/breaker.py:113 | the start of the kept range: every entry before it is below the cutoff, the entry at it (if any) is at or above |
| `RollingWindow.KeepCounts` | breakers/breaker.py:112-113 | the reference filter keeps each value `>= lo` with its multiplicity and drops every smaller value |
| `RollingWindow.Prune` | breakers/breaker.py:113 | pruning does not lengthen the window and the first entry it keeps is at or above the cutoff; which entries it keeps is stated by `PruneIsKeep` |
| `RollingWindow.PruneIsKeep` | breakers/breaker.py:113 | on a sorted window, dropping the prefix below the cutoff gives exactly the filtered window |
| `RollingWindow.Insert` | breakers/breaker.py:116 | adding a timestamp makes the window one entry longer and the timestamp is in it; the rest is stated by `InsertSpec` |
| `RollingWindow.InsertSpec` | breakers/breaker.py:116 | adding a timestamp keeps the window sorted and adds exactly one copy of the value, leaving the other entries as they were |
| `RollingWindow.Roll` | breakers/breaker.py:108-118 | an increment holds `now` and grows the window by at most one entry; its exact length and contents are stated by `RollSpec` and `RollCount` |
| `RollingWindow.RollSpec` | breakers/breaker.py:108-118 | one increment of a sorted window is the filtered window with one `now` inserted: it stays sorted, its length is the kept count plus one, its contents are the kept entries plus one `now` |
| `RollingWindow.RollCount` | breakers/breaker.py:112-116 | after an increment each value occurs as often as before if it is `>= now - duration` (else not at all), plus once more if it is `now` |
| `RollingWindow.RollSameSecond` | breakers/breaker.py:113-118 | events in one second are counted individually: a window of `now` entries gains one more and loses none |
| `RollingWindow.RollWithinWindow` | breakers/breaker.py:112-116 | with a clock that does not go backwards, the window holds only timestamps in `[now - duration, now]` |
| `RollingWindow.RollEvicts` | breakers/breaker.py:112-113 | an entry more than `duration` seconds old is not in the window after an increment |
| `Breakers.Breaker.constructor` | breakers/breaker.py:13-39 | the configuration is stored, `service` defaults to `"default"`, no trip time and both windows empty |
| `Breakers.Breaker.Open` | breakers/breaker.py:72-80 | false with no trip time; otherwise true iff the trip is less than `reenable_after` seconds old |
| `Breakers.Breaker.HalfOpen` | breakers/breaker.py:66-70 | false with no trip time; otherwise true iff the trip is more than `reenable_after` seconds old; never together with open; neither holds only at exactly `reenable_after` seconds |
| `Breakers.Breaker.Key` | breakers/breaker.py:85-86 | the key is `breaker-`, the service, `-` and the name (`None` when absent), read back piece by piece |
| `Breakers.KeyInjective` | breakers/breaker.py:85-86 | for one breaker, two given names with the same key are the same name |
| `Breakers.Breaker.ShouldOpenAbsolute` | breakers/breaker.py:96-97 | the decision compares a count with the threshold and reads neither window; which count the error hook passes to it, and so what the absolute strategy trips on, is stated by `AbsoluteCountsWindow` |
| `Breakers.AbsoluteCountsWindow` | breakers/breaker.py:61-63 | under the absolute strategy, the error hook trips exactly when the errors at or after `now - duration` plus the one just recorded reach the threshold, whatever the attempt window holds |
| `Breakers.Breaker.ShouldOpenPercentage` | breakers/breaker.py:99-106 | never trips on fewer than 5 attempts in the window; otherwise trips iff `errors * 100 >= threshold * attempts` |
| `Breakers.FloorQuotientAtLeast` | breakers/breaker.py:105-106 | for a positive divisor, the floored quotient reaches an integer threshold iff the dividend reaches threshold times divisor |
| `Breakers.Breaker.ShouldOpen` | breakers/breaker.py:88-97 | absolute: trips iff the count reaches the threshold; percentage: the rule above; any other strategy is an error naming it |
| `Breakers.Breaker.IncrementRollingWindow` | breakers/breaker.py:108-118 | the named window becomes its increment by `now`, the other window and the trip time stay, and the result is the new length |
| `Breakers.Breaker.PruneWindow` | breakers/breaker.py:112-113 | the named window is replaced by its entries at or after the cutoff and stays sorted; nothing else changes |
| `Breakers.Breaker.AddToWindow` | breakers/breaker.py:115-116 | the timestamp is added to the named window at its sorted position; nothing else changes |
| `Breakers.Breaker.Trip` | breakers/breaker.py:82-83 | the trip time becomes `now`, the windows stay, and with a positive `reenable_after` the breaker is open at `now` |
| `Breakers.Breaker.Reset` | breakers/breaker.py:57-59 | no trip time and an empty error window; the attempt window stays |
| `Breakers.Breaker.ProcessSuccess` | breakers/breaker.py:53-55 | a reset iff the breaker was half-open; otherwise nothing changes |
| `Breakers.Breaker.ProcessError` | breakers/breaker.py:61-64 | the error window is incremented and the attempt window stays; the trip time becomes `now` iff the breaker was half-open or the strategy trips on the new count, and an unknown strategy is reported with the trip time unchanged |
| `Breakers.Breaker.Run` | breakers/breaker.py:41-51 | while open: `BreakerOpen` and no change; otherwise the attempt window is incremented, the error window stays unless a half-open breaker is reset, and the trip time is cleared iff it was half-open |
| `BreakerScenarios.InitialState` | tests/test_breaker.py:12-17 | a fresh breaker is neither open nor half-open and its first run passes |
| `BreakerScenarios.StateAroundReenable` | tests/test_breaker.py:19-29 | with `reenable_after = 10`, a trip 5 seconds old is open and not half-open, one 11 seconds old is half-open and not open |
| `BreakerScenarios.SameSecondCounts` | tests/test_breaker.py:31-36 | `n` increments within one second return `1, 2, ..., n` |
| `BreakerScenarios.Eviction` | tests/test_breaker.py:38-44 | with a one-second window, the first increment returns 1; an error is evicted two seconds later and the next increment returns 1 (this second half comes from the test's commented-out lines 42-44, which sleep two seconds and increment again; that call names no window, and the model uses the error window) |
| `BreakerScenarios.AbsoluteThreshold` | tests/test_breaker.py:46-52 | threshold 5: a count of 6 trips, 4 does not |
| `BreakerScenarios.SingleError` | tests/test_breaker.py:54-57 | one error against threshold 5 leaves the breaker closed |
| `BreakerScenarios.TripAfterTwoErrors` | tests/test_breaker.py:59-68 | two errors against threshold 2 trip at `now`: open and not half-open |
| `BreakerScenarios.HalfOpenSuccess` | tests/test_breaker.py:70-80 | a success while half-open clears the trip time and the error window |
| `BreakerScenarios.PercentageTrip` | tests/test_breaker.py:82-96 | 10% over 60 attempts: five errors stay closed, the sixth opens |

## Left out

- The clock (`breakers/breaker.py:8-9`): wall-clock input, replaced by the `now` parameter; the model cannot express the clock moving between two reads inside one call.
- The sorted-list library: foreign code, replaced by a sorted `seq<int>` with `Prune` and `Insert`; its internal bisection and balancing are not modelled, only the resulting contents.
- The `except` branch of `run` (`breakers/breaker.py:47-49`): it fires only when the window update itself raises, which the model's update cannot do.
- The `BreakerOpen` and `NotImplementedError` exceptions: modelled as the `Error` values `BreakerOpen` and `NotImplemented(strategy)` returned in an `Outcome` or `Result`.
- Selecting a window by attribute name: modelled by the `Counter` datatype with the two names the class uses; any other name (an attribute error in Python) cannot be expressed.
- Non-integer values: `threshold`, `duration`, `reenable_after` and the trip time are integers here; Python also accepts floats (the tests store a float trip time), and floating-point division is not modelled.
- Formatting of non-string values in `key`: the service and the name are strings, a missing name prints as `None`.
- Concurrency: the class has no locks and the model is sequential.
- `setup.py`: packaging metadata with no logic.
