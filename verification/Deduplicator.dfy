/** The bounded event deduplicator, against the unbounded history it stands for. */
module Deduplicator {
  const PRUNE_THRESHOLD: nat := 100_000
  const PRUNE_KEEP: nat := 50_000

  datatype Window = Window(seen: set<nat>, maxSeen: nat)

  function SaturatingSub(x: nat, y: nat): nat { if x >= y then x - y else 0 }

  function Pruned(w: Window): Window {
    if |w.seen| <= PRUNE_THRESHOLD then w
    else w.(seen := set s | s in w.seen && s > SaturatingSub(w.maxSeen, PRUNE_KEEP))
  }

  predicate Fresh(w: Window, s: nat) { s > w.maxSeen || s !in w.seen }

  function Checked(w: Window, s: nat): Window {
    if s > w.maxSeen then Pruned(Window(w.seen + {s}, s))
    else if s in w.seen then w
    else Pruned(w.(seen := w.seen + {s}))
  }

  /** The window after the first n numbers, from a deduplicator seeded at `start`. */
  function After(start: nat, numbers: seq<nat>, n: nat): Window
    requires n <= |numbers|
  {
    if n == 0 then Window({}, start) else Checked(After(start, numbers, n - 1), numbers[n - 1])
  }

  /** Everything checked so far. */
  function History(numbers: seq<nat>, n: nat): set<nat>
    requires n <= |numbers|
  {
    if n == 0 then {} else History(numbers, n - 1) + {numbers[n - 1]}
  }

  lemma {:induction false} HistoryMembers(numbers: seq<nat>, n: nat, s: nat)
    requires n <= |numbers|
    ensures s in History(numbers, n) <==> exists k :: 0 <= k < n && numbers[k] == s
  {
    if n > 0 { HistoryMembers(numbers, n - 1, s); }
  }

  class EventDeduplicator {
    var seen: set<nat>
    var maxSeen: nat

    function State(): Window
      reads this
    {
      Window(seen, maxSeen)
    }

    constructor FromSeq(start: nat)
      ensures State() == Window({}, start)
    {
      seen, maxSeen := {}, start;
    }

    method MaybePrune()
      modifies this
      ensures State() == Pruned(old(State()))
    {
      if |seen| <= PRUNE_THRESHOLD { return; }
      var cutoff := SaturatingSub(maxSeen, PRUNE_KEEP);
      seen := set s | s in seen && s > cutoff;
    }

    method Check(s: nat) returns (isNew: bool)
      modifies this
      ensures State() == Checked(old(State()), s) && isNew == Fresh(old(State()), s)
    {
      if s > maxSeen {
        seen, maxSeen := seen + {s}, s;
        MaybePrune();
        return true;
      }
      isNew := s !in seen;
      seen := seen + {s};
      if isNew {
        MaybePrune();
      } else {
        assert seen == old(seen);
      }
    }
  }

  lemma {:induction false} Cardinality(s: set<nat>, low: int, n: nat)
    requires forall x :: x in s ==> low < x <= low + n
    ensures |s| <= n
  {
    if n == 0 {
      assert s == {};
    } else {
      Cardinality(s - {low + n}, low, n - 1);
      if low + n >= 0 { assert s <= (s - {low + n}) + {low + n}; }
    }
  }

  /** A window against the numbers checked so far. */
  predicate Tracks(w: Window, history: set<nat>) {
    && w.seen <= history
    && (forall x :: x in history ==> x <= w.maxSeen)
    && (forall x :: x in history && x + PRUNE_KEEP > w.maxSeen ==> x in w.seen)
    && |w.seen| <= PRUNE_THRESHOLD
    && (|history| <= PRUNE_THRESHOLD ==> w.seen == history)
  }

  /** One check keeps the window exact on the last 50,000 numbers, and when it prunes, the
      saturating subtraction does not saturate. */
  lemma CheckTracks(w: Window, history: set<nat>, s: nat)
    requires Tracks(w, history)
    ensures Tracks(Checked(w, s), history + {s})
    ensures |w.seen + {s}| > PRUNE_THRESHOLD ==> Checked(w, s).maxSeen >= PRUNE_KEEP
  {
    var top := if s > w.maxSeen then s else w.maxSeen;
    var grown := Window(w.seen + {s}, top);
    var v := Pruned(grown);
    assert s in w.seen ==> grown.seen == w.seen;
    assert Checked(w, s) == v;
    if |grown.seen| > PRUNE_THRESHOLD {
      Cardinality(grown.seen, -1, top + 1);
      Cardinality(v.seen, top - PRUNE_KEEP, PRUNE_KEEP);
    }
    if |history + {s}| <= PRUNE_THRESHOLD {
      assert |history| <= |history + {s}| by { Subset(history, history + {s}); }
    }
  }

  lemma Subset(a: set<nat>, b: set<nat>)
    requires a <= b
    ensures |a| <= |b|
  {
    assert b == a + (b - a);
  }

  lemma {:induction false} RunTracks(start: nat, numbers: seq<nat>, n: nat)
    requires n <= |numbers|
    ensures Tracks(After(start, numbers, n), History(numbers, n))
  {
    if n > 0 {
      RunTracks(start, numbers, n - 1);
      CheckTracks(After(start, numbers, n - 1), History(numbers, n - 1), numbers[n - 1]);
    }
  }

  /** Over every run: a number never checked before is accepted; one within 50,000 of the
      largest number so far is accepted only then; and memory stays bounded. */
  lemma WindowExact(start: nat, numbers: seq<nat>, n: nat)
    requires n < |numbers|
    ensures var w := After(start, numbers, n);
      var s := numbers[n];
      && (s !in History(numbers, n) ==> Fresh(w, s))
      && (s + 50_000 > w.maxSeen ==> (Fresh(w, s) <==> s !in History(numbers, n)))
      && |w.seen| <= 100_000
  {
    RunTracks(start, numbers, n);
  }

  /** Over every run the watermark is the largest of the seed and the numbers checked. */
  lemma {:induction false} WatermarkExact(start: nat, numbers: seq<nat>, n: nat)
    requires n <= |numbers|
    ensures var top := After(start, numbers, n).maxSeen;
      && top >= start && (forall k :: 0 <= k < n ==> top >= numbers[k])
      && (top == start || exists k :: 0 <= k < n && numbers[k] == top)
  {
    if n > 0 { WatermarkExact(start, numbers, n - 1); }
  }

  /** While at most 100,000 distinct numbers occur, the window is the whole history: every
      number is accepted exactly at its first occurrence. */
  lemma SmallRunsExact(start: nat, numbers: seq<nat>, n: nat)
    requires n < |numbers| && |History(numbers, n)| <= 100_000
    ensures Fresh(After(start, numbers, n), numbers[n]) <==>
      (forall k :: 0 <= k < n ==> numbers[k] != numbers[n])
  {
    RunTracks(start, numbers, n);
    HistoryMembers(numbers, n, numbers[n]);
  }

  function Numbers(n: nat): (s: set<nat>)
    ensures |s| == n && forall x :: x in s ==> 1 <= x <= n
  {
    if n == 0 then {} else Numbers(n - 1) + {n}
  }

  function UpTo(n: nat): seq<nat> { seq(n, k => k + 1) }

  lemma {:induction false} CountUp(numbers: seq<nat>, n: nat)
    requires n <= |numbers| && n <= PRUNE_THRESHOLD
    requires forall k :: 0 <= k < n ==> numbers[k] == k + 1
    ensures After(0, numbers, n) == Window(Numbers(n), n)
  {
    if n > 0 {
      CountUp(numbers, n - 1);
    }
  }

  /** Both bounds are exact: one distinct number more and a number exactly 50,000 behind the
      largest is accepted a second time. */
  lemma BoundsAreTight()
    ensures var numbers := UpTo(100_001) + [50_001];
      var n := 100_001;
      && numbers[n] in History(numbers, n)
      && numbers[n] + 50_000 == After(0, numbers, n).maxSeen
      && Fresh(After(0, numbers, n), numbers[n])
  {
    var n := PRUNE_THRESHOLD + 1;
    var numbers := UpTo(n) + [n - PRUNE_KEEP];
    CountUp(numbers, n - 1);
    assert |Numbers(n)| == n;
    assert numbers[n - PRUNE_KEEP - 1] == n - PRUNE_KEEP;
    HistoryMembers(numbers, n, numbers[n]);
  }

  /** Accepted exactly when new. */
  predicate ExactAt(start: nat, numbers: seq<nat>, n: nat)
    requires n < |numbers|
  {
    Fresh(After(start, numbers, n), numbers[n]) <==> numbers[n] !in History(numbers, n)
  }

  lemma {:induction false} HistorySize(numbers: seq<nat>, n: nat)
    requires n <= |numbers|
    ensures |History(numbers, n)| <= n
  {
    if n > 0 { HistorySize(numbers, n - 1); }
  }

  /** Repeats are rejected in every run of at most `limit` distinct numbers if and only if the
      limit is at most 100,000. */
  lemma ExactUpToIff(limit: nat)
    ensures (forall start: nat, numbers: seq<nat>, n: nat ::
               n < |numbers| && |History(numbers, n)| <= limit ==> ExactAt(start, numbers, n))
      <==> limit <= 100_000
  {
    if limit <= PRUNE_THRESHOLD {
      forall start: nat, numbers: seq<nat>, n: nat | n < |numbers| && |History(numbers, n)| <= limit
        ensures ExactAt(start, numbers, n)
      {
        RunTracks(start, numbers, n);
      }
    } else {
      var n := PRUNE_THRESHOLD + 1;
      var numbers := UpTo(n) + [n - PRUNE_KEEP];
      BoundsAreTight();
      HistorySize(numbers, n);
      assert !ExactAt(0, numbers, n);
    }
  }

  /** They are rejected in every run as long as they lag the largest number by less than `lag`
      if and only if the lag is at most 50,000. */
  lemma ExactWithinIff(lag: nat)
    ensures (forall start: nat, numbers: seq<nat>, n: nat ::
               n < |numbers| && numbers[n] + lag > After(start, numbers, n).maxSeen ==> ExactAt(start, numbers, n))
      <==> lag <= 50_000
  {
    if lag <= PRUNE_KEEP {
      forall start: nat, numbers: seq<nat>, n: nat
        | n < |numbers| && numbers[n] + lag > After(start, numbers, n).maxSeen
        ensures ExactAt(start, numbers, n)
      {
        RunTracks(start, numbers, n);
      }
    } else {
      var n := PRUNE_THRESHOLD + 1;
      var numbers := UpTo(n) + [n - PRUNE_KEEP];
      BoundsAreTight();
      assert numbers[n] + lag > After(0, numbers, n).maxSeen && !ExactAt(0, numbers, n);
    }
  }
}
