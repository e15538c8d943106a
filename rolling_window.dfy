/** The rolling windows of a breaker: sorted multisets of whole-second
    timestamps, kept as sorted sequences in which duplicates are allowed.
    A window is pruned to the entries at or after a cutoff (the suffix that
    an `irange(minimum=cutoff)` of a sorted list yields) and then receives
    one more timestamp at its sorted position. */
module RollingWindow {

  /** Non-decreasing order; equal timestamps may repeat. */
  ghost predicate Sorted(s: seq<int>) {
    forall i, j :: 0 <= i < j < |s| ==> s[i] <= s[j]
  }

  /** The first index whose entry is at least `lo` (a left bisection;
      on an unsorted input, the first such index of a left-to-right scan). */
  function FirstAtLeast(s: seq<int>, lo: int): (k: nat)
    ensures k <= |s|
    ensures forall i :: 0 <= i < k ==> s[i] < lo
    ensures k < |s| ==> s[k] >= lo
  {
    if s == [] then 0
    else if s[0] >= lo then 0
    else 1 + FirstAtLeast(s[1..], lo)
  }

  /** The reference meaning of pruning: the entries `>= lo`, in order. */
  function Keep(s: seq<int>, lo: int): seq<int> {
    if s == [] then []
    else (if s[0] >= lo then [s[0]] else []) + Keep(s[1..], lo)
  }

  /** Filtering keeps every value `>= lo` with its multiplicity and no other. */
  lemma {:induction false} KeepCounts(s: seq<int>, lo: int)
    ensures forall v :: multiset(Keep(s, lo))[v] == if v >= lo then multiset(s)[v] else 0
  {
    if s != [] {
      KeepCounts(s[1..], lo);
      assert s == [s[0]] + s[1..];
    }
  }

  /** Pruning as the window does it: drop the prefix of entries below `lo`.
      No entry is added, and the first entry kept, if any, is at least `lo`;
      which entries are kept is stated by `PruneIsKeep`. */
  function Prune(s: seq<int>, lo: int): (r: seq<int>)
    ensures |r| <= |s|
    ensures r != [] ==> r[0] >= lo
  {
    s[FirstAtLeast(s, lo)..]
  }

  /** Insert `x` after every entry `<= x` (a right bisection, as a sorted
      list's `add` does): one more entry, and `x` is among them; that the
      other entries are those of `s` is stated by `InsertSpec`. */
  function Insert(s: seq<int>, x: int): (r: seq<int>)
    ensures |r| == |s| + 1
    ensures x in r
  {
    var k := FirstAtLeast(s, x + 1);
    assert (s[..k] + [x] + s[k..])[k] == x;
    s[..k] + [x] + s[k..]
  }

  /** One increment of a window: prune to `now - duration`, then add `now`.
      The new window holds `now` and grows by at most that one entry; its
      exact length and contents are stated by `RollSpec` and `RollCount`. */
  function Roll(w: seq<int>, now: int, duration: int): (r: seq<int>)
    ensures 1 <= |r| <= |w| + 1
    ensures now in r
  {
    Insert(Prune(w, now - duration), now)
  }

  /** On a sorted window, pruning by prefix removes exactly what the filter
      removes. */
  lemma {:induction false} PruneIsKeep(s: seq<int>, lo: int)
    requires Sorted(s)
    ensures Prune(s, lo) == Keep(s, lo)
  {
    if s != [] {
      var t := s[1..];
      assert Sorted(t);
      PruneIsKeep(t, lo);
      if s[0] >= lo {
        if t != [] {
          assert t[0] >= lo;
        }
        assert FirstAtLeast(t, lo) == 0;
        assert Keep(s, lo) == [s[0]] + t;
        assert s == [s[0]] + t;
      } else {
        assert s[FirstAtLeast(s, lo)..] == t[FirstAtLeast(t, lo)..];
      }
    }
  }

  /** Pruning keeps the window sorted. */
  lemma PruneSorted(s: seq<int>, lo: int)
    requires Sorted(s)
    ensures Sorted(Prune(s, lo))
  {
  }

  /** Insertion keeps the window sorted and adds exactly one copy of `x`. */
  lemma InsertSpec(s: seq<int>, x: int)
    requires Sorted(s)
    ensures Sorted(Insert(s, x))
    ensures multiset(Insert(s, x)) == multiset(s) + multiset{x}
  {
    var k := FirstAtLeast(s, x + 1);
    InsertSorted(s, x, k, Insert(s, x));
    assert s == s[..k] + s[k..];
  }

  /** The order argument of `InsertSpec`, over the pieces of the result. */
  lemma InsertSorted(s: seq<int>, x: int, k: nat, r: seq<int>)
    requires Sorted(s) && k == FirstAtLeast(s, x + 1) && r == s[..k] + [x] + s[k..]
    ensures Sorted(r)
  {
    var below, above := s[..k], s[k..];
    assert Sorted(below) && Sorted(above);
    assert forall j :: 0 <= j < |above| ==> x <= above[j] by {
      forall j | 0 <= j < |above| ensures x <= above[j] {
        assert s[k] <= s[k + j];
      }
    }
    JoinSorted(below, [x], x);
    JoinSorted(below + [x], above, x);
  }

  /** Two sorted pieces separated by a bound join into a sorted sequence. */
  lemma JoinSorted(a: seq<int>, b: seq<int>, m: int)
    requires Sorted(a) && Sorted(b)
    requires forall i :: 0 <= i < |a| ==> a[i] <= m
    requires forall j :: 0 <= j < |b| ==> m <= b[j]
    ensures Sorted(a + b)
  {
    forall i, j | 0 <= i < j < |a + b| ensures (a + b)[i] <= (a + b)[j] {
      if j < |a| {
        assert (a + b)[i] == a[i] && (a + b)[j] == a[j];
      } else if i >= |a| {
        assert (a + b)[i] == b[i - |a|] && (a + b)[j] == b[j - |a|];
      } else {
        assert (a + b)[i] == a[i] && (a + b)[j] == b[j - |a|];
      }
    }
  }

  /** The increment of a sorted window keeps it sorted and is the filtered
      window (`Keep`: exactly the entries `>= now - duration`, with their
      multiplicities) with one copy of `now` added at its sorted position. */
  lemma RollSpec(w: seq<int>, now: int, duration: int)
    requires Sorted(w)
    ensures Roll(w, now, duration) == Insert(Keep(w, now - duration), now)
    ensures Sorted(Roll(w, now, duration))
    ensures |Roll(w, now, duration)| == |Keep(w, now - duration)| + 1
    ensures multiset(Roll(w, now, duration)) == multiset(Keep(w, now - duration)) + multiset{now}
  {
    var kept := Keep(w, now - duration);
    RollIsInsertKept(w, now, duration);
    KeepSorted(w, now - duration);
    InsertSpec(kept, now);
  }

  /** The increment of a sorted window inserts into the filtered window. */
  lemma RollIsInsertKept(w: seq<int>, now: int, duration: int)
    requires Sorted(w)
    ensures Roll(w, now, duration) == Insert(Keep(w, now - duration), now)
  {
    PruneIsKeep(w, now - duration);
  }

  /** Filtering keeps a sorted window sorted. */
  lemma KeepSorted(w: seq<int>, lo: int)
    requires Sorted(w)
    ensures Sorted(Keep(w, lo))
  {
    PruneIsKeep(w, lo);
    PruneSorted(w, lo);
  }

  /** The two clauses of `RollSpec` that an increment of a breaker's window
      needs. It exists only to keep the verification of that method cheap:
      calling `RollSpec` there brings its multiset clause into the method's
      proof, which makes that proof many times more expensive. */
  lemma RollSorted(w: seq<int>, now: int, duration: int)
    requires Sorted(w)
    ensures Sorted(Roll(w, now, duration))
    ensures |Roll(w, now, duration)| == |Keep(w, now - duration)| + 1
  {
    RollSpec(w, now, duration);
  }

  /** Pointwise: after an increment, a value `v` occurs as often as it did
      in the window if `v >= now - duration` (and not at all otherwise), plus
      once more if it is `now`. */
  lemma {:induction false} RollCount(w: seq<int>, now: int, duration: int, v: int)
    requires Sorted(w)
    ensures multiset(Roll(w, now, duration))[v]
            == (if v >= now - duration then multiset(w)[v] else 0) + (if v == now then 1 else 0)
  {
    var kept := Keep(w, now - duration);
    RollSpec(w, now, duration);
    KeepCounts(w, now - duration);
    assert multiset(kept)[v] == if v >= now - duration then multiset(w)[v] else 0;
    assert multiset(Roll(w, now, duration))[v] == multiset(kept)[v] + multiset{now}[v];
  }

  /** When all entries are the same second `now` and the duration is not
      negative, nothing is evicted and the new entry goes last: events in one
      second are counted one by one. */
  lemma RollSameSecond(w: seq<int>, now: int, duration: int)
    requires duration >= 0
    requires forall k :: 0 <= k < |w| ==> w[k] == now
    ensures Roll(w, now, duration) == w + [now]
  {
    assert FirstAtLeast(w, now - duration) == 0 by {
      if w != [] { assert w[0] >= now - duration; }
    }
    assert w[0..] == w;
    assert FirstAtLeast(w, now + 1) == |w|;
    assert w[..|w|] == w;
  }

  /** With a clock that never goes backwards (every entry `<= now`) and a
      non-negative duration, the incremented window holds only timestamps in
      `[now - duration, now]`. */
  lemma {:induction false} RollWithinWindow(w: seq<int>, now: int, duration: int)
    requires Sorted(w)
    requires duration >= 0
    requires forall k :: 0 <= k < |w| ==> w[k] <= now
    ensures forall k :: 0 <= k < |Roll(w, now, duration)|
                        ==> now - duration <= Roll(w, now, duration)[k] <= now
  {
    var r := Roll(w, now, duration);
    forall k | 0 <= k < |r| ensures now - duration <= r[k] <= now {
      var v := r[k];
      RollCount(w, now, duration, v);
      assert v in multiset(r);
      if v != now {
        assert multiset(w)[v] > 0 && v >= now - duration;
        assert v in w;
      }
    }
  }

  /** An entry older than the cutoff is no longer in the window after an
      increment: an event at `t` stops being counted once `now - t > duration`. */
  lemma {:induction false} RollEvicts(w: seq<int>, now: int, duration: int, t: int)
    requires Sorted(w)
    requires duration >= 0
    requires now - t > duration
    ensures t !in Roll(w, now, duration)
  {
    RollCount(w, now, duration, t);
  }
}
