/** The fail ladder, its stateless level, and the stateful walker that refines it under any
    poll schedule. Durations and instants are integers (nanoseconds). */
module FailLadder {
  import opened Wrappers

  datatype KillLevel = Normal | WidenSpreads | StopNew | CancelAll | Flatten | Disconnect

  datatype Rung = Rung(after: nat, level: KillLevel)

  datatype LadderError = Empty | NotMonotonic

  datatype LadderResult = Ok(rungs: seq<Rung>) | Err(error: LadderError)

  predicate WaitsIncrease(rungs: seq<Rung>) {
    forall k :: 0 < k < |rungs| ==> rungs[k - 1].after < rungs[k].after
  }

  function FromRungs(rungs: seq<Rung>): LadderResult {
    if rungs == [] then Err(Empty) else if !WaitsIncrease(rungs) then Err(NotMonotonic) else Ok(rungs)
  }

  const SECOND: nat := 1_000_000_000

  const DEFAULT_MAKER: seq<Rung> :=
    [Rung(15 * SECOND, WidenSpreads), Rung(60 * SECOND, StopNew), Rung(300 * SECOND, Flatten)]

  const DEFAULT_DRIVER: seq<Rung> :=
    [Rung(15 * SECOND, StopNew), Rung(60 * SECOND, CancelAll), Rung(300 * SECOND, Flatten)]

  /** The last rung crossed, searched from the top. */
  function LevelAt(rungs: seq<Rung>, silence: nat): Option<KillLevel> {
    if rungs == [] then None
    else if silence >= rungs[|rungs| - 1].after then Some(rungs[|rungs| - 1].level)
    else LevelAt(rungs[..|rungs| - 1], silence)
  }

  /** How many rungs a silence has crossed. */
  function Crossed(rungs: seq<Rung>, silence: nat): (n: nat)
    ensures n <= |rungs|
  {
    if rungs == [] then 0
    else if silence >= rungs[|rungs| - 1].after then |rungs|
    else Crossed(rungs[..|rungs| - 1], silence)
  }

  lemma {:induction false} Sorted(rungs: seq<Rung>, i: nat, j: nat)
    requires WaitsIncrease(rungs) && i < j < |rungs|
    ensures rungs[i].after < rungs[j].after
  {
    if i + 1 < j { Sorted(rungs, i, j - 1); }
  }

  lemma {:induction false} CrossedMeaning(rungs: seq<Rung>, silence: nat)
    requires WaitsIncrease(rungs)
    ensures forall k :: 0 <= k < |rungs| ==> (k < Crossed(rungs, silence) <==> silence >= rungs[k].after)
  {
    if rungs != [] {
      var last := |rungs| - 1;
      if silence >= rungs[last].after {
        forall k | 0 <= k < last ensures silence >= rungs[k].after { Sorted(rungs, k, last); }
      } else {
        CrossedMeaning(rungs[..last], silence);
        assert forall k :: 0 <= k < last ==> rungs[..last][k] == rungs[k];
      }
    }
  }

  predicate IsHighestCrossed(rungs: seq<Rung>, silence: nat, k: nat)
    requires k < |rungs|
  {
    silence >= rungs[k].after && (k + 1 < |rungs| ==> silence < rungs[k + 1].after)
  }

  /** On a valid ladder the level is that of the highest rung whose wait is over. */
  lemma LevelIsHighestCrossed(rungs: seq<Rung>, silence: nat)
    requires WaitsIncrease(rungs)
    ensures LevelAt(rungs, silence).None? <==> forall k :: 0 <= k < |rungs| ==> silence < rungs[k].after
    ensures forall k :: 0 <= k < |rungs| && IsHighestCrossed(rungs, silence, k) ==>
      LevelAt(rungs, silence) == Some(rungs[k].level)
  {
    CrossedMeaning(rungs, silence);
    LevelOfCrossed(rungs, silence);
  }

  lemma {:induction false} LevelOfCrossed(rungs: seq<Rung>, silence: nat)
    ensures LevelAt(rungs, silence) ==
      var n := Crossed(rungs, silence);
      if n == 0 then None else Some(rungs[n - 1].level)
  {
    if rungs != [] && silence < rungs[|rungs| - 1].after {
      LevelOfCrossed(rungs[..|rungs| - 1], silence);
    }
  }

  lemma {:induction false} CrossedMonotone(rungs: seq<Rung>, less: nat, more: nat)
    requires less <= more
    ensures Crossed(rungs, less) <= Crossed(rungs, more)
  {
    if rungs != [] && more < rungs[|rungs| - 1].after {
      CrossedMonotone(rungs[..|rungs| - 1], less, more);
    }
  }

  /** A ladder is accepted as it stands if and only if it has a rung and every rung waits longer
      than all before it; the two refusals are told apart. */
  lemma FromRungsIff(rungs: seq<Rung>)
    ensures FromRungs(rungs) == Ok(rungs) <==>
      rungs != [] && forall i, j :: 0 <= i < j < |rungs| ==> rungs[i].after < rungs[j].after
    ensures FromRungs(rungs) == Err(Empty) <==> rungs == []
    ensures FromRungs(rungs) == Err(NotMonotonic) <==>
      exists i, j :: 0 <= i < j < |rungs| && rungs[i].after >= rungs[j].after
  {
    if WaitsIncrease(rungs) {
      forall i, j | 0 <= i < j < |rungs| ensures rungs[i].after < rungs[j].after { Sorted(rungs, i, j); }
    }
  }

  /** Both default ladders are accepted. */
  lemma DefaultsAreValid()
    ensures FromRungs(DEFAULT_MAKER) == Ok(DEFAULT_MAKER) && FromRungs(DEFAULT_DRIVER) == Ok(DEFAULT_DRIVER)
  {
    assert DEFAULT_MAKER[0].after < DEFAULT_MAKER[1].after < DEFAULT_MAKER[2].after;
    assert DEFAULT_DRIVER[0].after < DEFAULT_DRIVER[1].after < DEFAULT_DRIVER[2].after;
  }
}
