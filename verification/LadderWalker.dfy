/** The walker: fires each rung once, skipping to the highest one already due. */
module LadderWalker {
  import opened Wrappers
  import opened FailLadder

  datatype FailAction = FailAction(level: KillLevel, rungIndex: nat)

  function Silence(enteredAt: int, now: int): nat { if now >= enteredAt then now - enteredAt else 0 }

  /** The specification's state is how many rungs have fired; they form a prefix. */
  function FiredAfter(rungs: seq<Rung>, fired: nat, silence: nat): nat {
    if Crossed(rungs, silence) > fired then Crossed(rungs, silence) else fired
  }

  function Emitted(rungs: seq<Rung>, fired: nat, silence: nat): Option<FailAction> {
    var n := Crossed(rungs, silence);
    if n > fired then Some(FailAction(rungs[n - 1].level, n - 1)) else None
  }

  class FailLadderWalker {
    const ladder: seq<Rung>
    const enteredAt: int
    const flags: array<bool>
    ghost var fired: nat

    ghost predicate Valid()
      reads this, flags
    {
      && WaitsIncrease(ladder) && ladder != [] && flags.Length == |ladder| && fired <= |ladder|
      && (forall k :: 0 <= k < |ladder| ==> (flags[k] <==> k < fired))
    }

    constructor (ladder: seq<Rung>, enteredAt: int)
      requires FromRungs(ladder).Ok?
      ensures Valid() && fired == 0 && this.ladder == ladder && this.enteredAt == enteredAt
      ensures fresh(flags)
    {
      this.ladder, this.enteredAt, this.fired := ladder, enteredAt, 0;
      flags := new bool[|ladder|](_ => false);
    }

    method PollAt(now: int) returns (action: Option<FailAction>)
      requires Valid()
      modifies this`fired, flags
      ensures Valid() && fired == FiredAfter(ladder, old(fired), Silence(enteredAt, now))
      ensures action == Emitted(ladder, old(fired), Silence(enteredAt, now))
    {
      var silence := Silence(enteredAt, now);
      CrossedMeaning(ladder, silence);
      var idx := |ladder|;
      while idx > 0
        invariant 0 <= idx <= |ladder|
        invariant fired == old(fired) && Valid()
        invariant forall k :: idx <= k < |ladder| ==> silence < ladder[k].after || k < fired
      {
        idx := idx - 1;
        if silence >= ladder[idx].after && !flags[idx] {
          for i := 0 to idx + 1
            invariant fired == old(fired)
            invariant forall k :: 0 <= k < |ladder| ==> (flags[k] <==> k < i || k < fired)
          {
            flags[i] := true;
          }
          assert idx + 1 < |ladder| ==> silence < ladder[idx + 1].after;
          fired := idx + 1;
          return Some(FailAction(ladder[idx].level, idx));
        }
      }
      assert fired < |ladder| ==> silence < ladder[fired].after;
      return None;
    }

    predicate IsComplete(): (complete: bool)
      requires Valid()
      reads this, flags
      ensures complete <==> fired == |ladder|
    {
      assert fired < |ladder| ==> !flags[fired];
      forall k :: 0 <= k < flags.Length ==> flags[k]
    }

    function FirstUnfired(i: nat): (next: Option<nat>)
      requires Valid() && i <= fired
      reads this, flags
      ensures next == if fired < |ladder| then Some(ladder[fired].after) else None
      decreases |ladder| - i
    {
      if i == |ladder| then None else if !flags[i] then Some(ladder[i].after) else FirstUnfired(i + 1)
    }

    function NextRungAt(): (next: Option<nat>)
      requires Valid()
      reads this, flags
      ensures next == if fired < |ladder| then Some(ladder[fired].after) else None
    {
      FirstUnfired(0)
    }
  }

  /** A poll schedule: the instants polled, in order, late or running backwards alike. */
  function FiredBy(rungs: seq<Rung>, enteredAt: int, polls: seq<int>, n: nat): nat
    requires n <= |polls|
  {
    if n == 0 then 0
    else FiredAfter(rungs, FiredBy(rungs, enteredAt, polls, n - 1), Silence(enteredAt, polls[n - 1]))
  }

  function EmittedAt(rungs: seq<Rung>, enteredAt: int, polls: seq<int>, k: nat): Option<FailAction>
    requires k < |polls|
  {
    Emitted(rungs, FiredBy(rungs, enteredAt, polls, k), Silence(enteredAt, polls[k]))
  }

  function MaxSilence(enteredAt: int, polls: seq<int>, n: nat): nat
    requires n <= |polls|
  {
    if n == 0 then 0
    else
      var before, now := MaxSilence(enteredAt, polls, n - 1), Silence(enteredAt, polls[n - 1]);
      if now > before then now else before
  }

  /** A rung due immediately fires at the first poll, so an unpolled walker has fired none. */
  lemma {:induction false} FiredIsCrossed(rungs: seq<Rung>, enteredAt: int, polls: seq<int>, n: nat)
    requires n <= |polls|
    ensures FiredBy(rungs, enteredAt, polls, n)
      == if n == 0 then 0 else Crossed(rungs, MaxSilence(enteredAt, polls, n))
  {
    if n > 0 {
      FiredIsCrossed(rungs, enteredAt, polls, n - 1);
      var before, now := MaxSilence(enteredAt, polls, n - 1), Silence(enteredAt, polls[n - 1]);
      if now > before {
        CrossedMonotone(rungs, before, now);
      } else {
        CrossedMonotone(rungs, now, before);
      }
    }
  }

  lemma {:induction false} FiredMonotone(rungs: seq<Rung>, enteredAt: int, polls: seq<int>, m: nat, n: nat)
    requires m <= n <= |polls|
    ensures FiredBy(rungs, enteredAt, polls, m) <= FiredBy(rungs, enteredAt, polls, n)
  {
    if m < n { FiredMonotone(rungs, enteredAt, polls, m, n - 1); }
  }

  /** For any schedule, what has fired is exactly the rungs the longest silence crossed. */
  lemma FiredIsPrefix(rungs: seq<Rung>, enteredAt: int, polls: seq<int>, n: nat, k: nat)
    requires WaitsIncrease(rungs) && 0 < n <= |polls| && k < |rungs|
    ensures k < FiredBy(rungs, enteredAt, polls, n) <==> MaxSilence(enteredAt, polls, n) >= rungs[k].after
  {
    FiredIsCrossed(rungs, enteredAt, polls, n);
    CrossedMeaning(rungs, MaxSilence(enteredAt, polls, n));
  }

  /** Every rung fires at most once and severity only climbs. */
  lemma ActionsClimb(rungs: seq<Rung>, enteredAt: int, polls: seq<int>, i: nat, j: nat)
    requires i < j < |polls|
    requires EmittedAt(rungs, enteredAt, polls, i).Some? && EmittedAt(rungs, enteredAt, polls, j).Some?
    ensures EmittedAt(rungs, enteredAt, polls, i).value.rungIndex
      < EmittedAt(rungs, enteredAt, polls, j).value.rungIndex
  {
    FiredMonotone(rungs, enteredAt, polls, i + 1, j);
  }

  /** The last of the first n polls that emitted an action, if any. */
  predicate IsLastEmission(rungs: seq<Rung>, enteredAt: int, polls: seq<int>, n: nat, last: Option<nat>)
    requires n <= |polls|
  {
    && (last.Some? ==> last.value < n && EmittedAt(rungs, enteredAt, polls, last.value).Some?)
    && (forall k :: (if last.Some? then last.value + 1 else 0) <= k < n ==>
          EmittedAt(rungs, enteredAt, polls, k).None?)
  }

  /** The walker refines the stateless ladder: the last level it emitted is the level at the
      longest silence polled, and it emitted nothing exactly when that level is none. */
  lemma LastLevelIsLevelAt(rungs: seq<Rung>, enteredAt: int, polls: seq<int>, n: nat)
    returns (last: Option<nat>)
    requires n <= |polls| && 0 < n
    ensures IsLastEmission(rungs, enteredAt, polls, n, last)
    ensures LevelAt(rungs, MaxSilence(enteredAt, polls, n))
      == if last.None? then None else Some(EmittedAt(rungs, enteredAt, polls, last.value).value.level)
  {
    last := LastEmission(rungs, enteredAt, polls, n);
    FiredIsCrossed(rungs, enteredAt, polls, n);
    LevelOfCrossed(rungs, MaxSilence(enteredAt, polls, n));
  }

  lemma {:induction false} LastEmission(rungs: seq<Rung>, enteredAt: int, polls: seq<int>, n: nat)
    returns (last: Option<nat>)
    requires n <= |polls|
    ensures IsLastEmission(rungs, enteredAt, polls, n, last)
    ensures var fired := FiredBy(rungs, enteredAt, polls, n);
      && (last.None? <==> fired == 0) && fired <= |rungs|
      && (last.Some? ==> EmittedAt(rungs, enteredAt, polls, last.value)
                           == Some(FailAction(rungs[fired - 1].level, fired - 1)))
  {
    if n == 0 {
      last := None;
    } else if EmittedAt(rungs, enteredAt, polls, n - 1).Some? {
      last := Some(n - 1);
    } else {
      last := LastEmission(rungs, enteredAt, polls, n - 1);
    }
  }

  /** Polling twice at one instant, or at any instant no later, adds nothing. */
  lemma RepeatedPollIsSilent(rungs: seq<Rung>, enteredAt: int, polls: seq<int>, i: nat, j: nat)
    requires i < j < |polls| && polls[j] <= polls[i]
    ensures EmittedAt(rungs, enteredAt, polls, j).None?
  {
    FiredMonotone(rungs, enteredAt, polls, i + 1, j);
    CrossedMonotone(rungs, Silence(enteredAt, polls[j]), Silence(enteredAt, polls[i]));
  }

  /** The walk is complete exactly when the longest silence reached the last rung; until then
      the next wake-up is the first wait longer than every silence polled. */
  lemma CompleteIff(rungs: seq<Rung>, enteredAt: int, polls: seq<int>, n: nat)
    requires WaitsIncrease(rungs) && rungs != [] && 0 < n <= |polls|
    ensures var silence := MaxSilence(enteredAt, polls, n);
      var fired := FiredBy(rungs, enteredAt, polls, n);
      && fired <= |rungs| && (fired == |rungs| <==> silence >= rungs[|rungs| - 1].after)
      && (fired < |rungs| ==> silence < rungs[fired].after)
      && (forall k :: 0 <= k < fired ==> rungs[k].after <= silence)
  {
    FiredIsCrossed(rungs, enteredAt, polls, n);
    CrossedMeaning(rungs, MaxSilence(enteredAt, polls, n));
  }

  // ---- in terms of the clock ----

  /** At this instant the rung's wait is over; a rung without a wait is due at any instant,
      one before the episode included. */
  predicate DueAt(rungs: seq<Rung>, enteredAt: int, now: int, k: nat)
    requires k < |rungs|
  {
    rungs[k].after == 0 || now - enteredAt >= rungs[k].after
  }

  lemma {:induction false} LongestSilence(enteredAt: int, polls: seq<int>, n: nat)
    requires n <= |polls|
    ensures forall i :: 0 <= i < n ==> polls[i] - enteredAt <= MaxSilence(enteredAt, polls, n)
    ensures MaxSilence(enteredAt, polls, n) == 0
      || exists i :: 0 <= i < n && polls[i] - enteredAt == MaxSilence(enteredAt, polls, n)
  {
    if n > 0 {
      LongestSilence(enteredAt, polls, n - 1);
      assert polls[n - 1] - enteredAt <= MaxSilence(enteredAt, polls, n);
    }
  }

  /** For any schedule, late, bunched or running backwards: a rung has fired if and only if it
      was due at one of the polls. */
  lemma FiredIff(rungs: seq<Rung>, enteredAt: int, polls: seq<int>, n: nat, k: nat)
    requires WaitsIncrease(rungs) && n <= |polls| && k < |rungs|
    ensures k < FiredBy(rungs, enteredAt, polls, n) <==>
      exists i :: 0 <= i < n && DueAt(rungs, enteredAt, polls[i], k)
  {
    if n > 0 {
      FiredIsPrefix(rungs, enteredAt, polls, n, k);
      LongestSilence(enteredAt, polls, n);
      if rungs[k].after == 0 { assert DueAt(rungs, enteredAt, polls[0], k); }
    }
  }

  /** A poll emits a rung, with its own level and index, if and only if it is the highest due
      at that poll and was due at none before. */
  lemma EmissionIff(rungs: seq<Rung>, enteredAt: int, polls: seq<int>, n: nat, k: nat)
    requires WaitsIncrease(rungs) && n < |polls| && k < |rungs|
    ensures EmittedAt(rungs, enteredAt, polls, n) == Some(FailAction(rungs[k].level, k)) <==>
      && DueAt(rungs, enteredAt, polls[n], k)
      && (forall j :: k < j < |rungs| ==> !DueAt(rungs, enteredAt, polls[n], j))
      && (forall i :: 0 <= i < n ==> !DueAt(rungs, enteredAt, polls[i], k))
  {
    var silence := Silence(enteredAt, polls[n]);
    CrossedMeaning(rungs, silence);
    var crossed := Crossed(rungs, silence);
    forall j | 0 <= j < |rungs| ensures j < crossed <==> DueAt(rungs, enteredAt, polls[n], j) { }
    FiredIff(rungs, enteredAt, polls, n, k);
    assert crossed == k + 1 <==>
      DueAt(rungs, enteredAt, polls[n], k) && (k + 1 < |rungs| ==> !DueAt(rungs, enteredAt, polls[n], k + 1));
  }

  /** Whatever a poll emits is some rung's own level and index. */
  lemma EmissionIsRung(rungs: seq<Rung>, enteredAt: int, polls: seq<int>, n: nat)
    requires n < |polls| && EmittedAt(rungs, enteredAt, polls, n).Some?
    ensures var action := EmittedAt(rungs, enteredAt, polls, n).value;
      action.rungIndex < |rungs| && action.level == rungs[action.rungIndex].level
  {
  }
}
