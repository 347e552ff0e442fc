/** The per-agent ring buffer of recent commands, against the full command log. */
module Replay {
  import opened Control

  const BUFFER_CAP: nat := 1024

  /** What a reconnecting agent has missed: later payloads, in order. */
  function PayloadsAfter(log: seq<Envelope>, after: nat): seq<Command> {
    if log == [] then []
    else (if log[0].seqNo > after then [log[0].payload] else []) + PayloadsAfter(log[1..], after)
  }

  /** The most recent entries, at most the buffer's capacity. */
  function Retained(log: seq<Envelope>): seq<Envelope> {
    if |log| <= BUFFER_CAP then log else log[|log| - BUFFER_CAP..]
  }

  predicate GapReported(buffer: seq<Envelope>, after: nat) {
    buffer != [] && buffer[0].seqNo > after + 1 && after != 0
  }

  /** Drops entries off the front until the buffer fits. */
  method Trimmed(buffer: seq<Envelope>) returns (kept: seq<Envelope>)
    ensures kept == Retained(buffer)
  {
    kept := buffer;
    while |kept| > BUFFER_CAP
      invariant |Retained(buffer)| <= |kept| <= |buffer| && kept == buffer[|buffer| - |kept|..]
      decreases |kept|
    {
      kept := kept[1..];
    }
  }

  method LaterPayloads(buffer: seq<Envelope>, after: nat) returns (out: seq<Command>)
    ensures out == PayloadsAfter(buffer, after)
  {
    out := [];
    for i := 0 to |buffer|
      invariant out == PayloadsAfter(buffer[..i], after)
    {
      assert buffer[..i + 1] == buffer[..i] + [buffer[i]];
      PayloadsSplit(buffer[..i], [buffer[i]], after);
      if buffer[i].seqNo > after { out := out + [buffer[i].payload]; }
    }
    assert buffer[..|buffer|] == buffer;
  }

  /** Trimming on every append keeps the same entries as trimming the whole log once. */
  lemma RetainedAppend(log: seq<Envelope>, e: Envelope)
    ensures Retained(Retained(log) + [e]) == Retained(log + [e])
  {
  }

  class ReplayStore {
    var inner: map<string, seq<Envelope>>
    /** History: every command appended per agent since it was last forgotten. */
    ghost var logs: map<string, seq<Envelope>>

    ghost predicate Valid()
      reads this
    {
      && inner.Keys == logs.Keys
      && (forall agent :: agent in inner ==> inner[agent] == Retained(logs[agent]))
    }

    ghost function Log(agent: string): seq<Envelope>
      reads this
    {
      if agent in logs then logs[agent] else []
    }

    constructor ()
      ensures Valid() && logs == map[]
    {
      inner, logs := map[], map[];
    }

    method Append(agent: string, seqNo: nat, payload: Command)
      requires Valid()
      modifies this
      ensures Valid()
      ensures logs == old(logs)[agent := old(Log(agent)) + [Envelope(seqNo, payload)]]
    {
      var buffer := if agent in inner then inner[agent] else [];
      RetainedAppend(Log(agent), Envelope(seqNo, payload));
      buffer := Trimmed(buffer + [Envelope(seqNo, payload)]);
      logs := logs[agent := Log(agent) + [Envelope(seqNo, payload)]];
      inner := inner[agent := buffer];
    }

    method ReplayAfter(agent: string, after: nat) returns (out: seq<Command>, gap: bool)
      requires Valid()
      ensures out == PayloadsAfter(Retained(Log(agent)), after)
      ensures gap == GapReported(Retained(Log(agent)), after)
    {
      out, gap := [], false;
      if agent in inner {
        var buffer := inner[agent];
        if buffer != [] {
          if buffer[0].seqNo > after + 1 && after != 0 { gap := true; }
        }
        out := LaterPayloads(buffer, after);
      }
    }

    method Forget(agent: string)
      requires Valid()
      modifies this
      ensures Valid() && logs == old(logs) - {agent}
    {
      inner, logs := inner - {agent}, logs - {agent};
    }
  }

  /** The log of a session: consecutive numbers from `base`. */
  predicate Consecutive(log: seq<Envelope>, base: nat) {
    forall k :: 0 <= k < |log| ==> log[k].seqNo == base + k
  }

  lemma {:induction false} PayloadsSplit(first: seq<Envelope>, second: seq<Envelope>, after: nat)
    ensures PayloadsAfter(first + second, after) == PayloadsAfter(first, after) + PayloadsAfter(second, after)
  {
    if first == [] {
      assert first + second == second;
    } else {
      assert (first + second)[0] == first[0] && (first + second)[1..] == first[1..] + second;
      PayloadsSplit(first[1..], second, after);
    }
  }

  lemma {:induction false} NothingAfterIff(log: seq<Envelope>, after: nat)
    ensures PayloadsAfter(log, after) == [] <==> forall k :: 0 <= k < |log| ==> log[k].seqNo <= after
  {
    if log != [] {
      NothingAfterIff(log[1..], after);
      assert forall k :: 1 <= k < |log| ==> log[k] == log[1..][k - 1];
    }
  }

  /** Some command the cursor has not covered is no longer in the buffer. */
  predicate Lost(log: seq<Envelope>, base: nat, after: nat) {
    |log| > 1024 && base + |log| - 1024 > after + 1
  }

  /** The buffer holds the newest entries of the log: all of them, or the last 1024. */
  lemma RetainedMeaning(log: seq<Envelope>)
    ensures |Retained(log)| == if |log| <= 1024 then |log| else 1024
    ensures Retained(log) == log[|log| - |Retained(log)|..]
  {
  }

  /** One more command is replayed, last, if and only if its number is beyond the cursor. */
  lemma PayloadsSnoc(log: seq<Envelope>, e: Envelope, after: nat)
    ensures PayloadsAfter([], after) == []
    ensures PayloadsAfter(log + [e], after) == PayloadsAfter(log, after) + if e.seqNo > after then [e.payload] else []
  {
    PayloadsSplit(log, [e], after);
    assert [e][1..] == [];
  }

  /** The replay is the agent's whole backlog exactly when nothing it misses was evicted, and
      always a suffix of it. */
  lemma ReplayCompleteIff(log: seq<Envelope>, base: nat, after: nat)
    requires Consecutive(log, base)
    ensures PayloadsAfter(Retained(log), after) == PayloadsAfter(log, after) <==> !Lost(log, base, after)
    ensures var all, some := PayloadsAfter(log, after), PayloadsAfter(Retained(log), after);
      |some| <= |all| && some == all[|all| - |some|..]
  {
    var evicted := |log| - |Retained(log)|;
    assert log == log[..evicted] + Retained(log);
    PayloadsSplit(log[..evicted], Retained(log), after);
    NothingAfterIff(log[..evicted], after);
    assert evicted > 0 ==> log[..evicted][evicted - 1].seqNo == base + evicted - 1;
  }

  /** When the reported gap means what it says. For a live cursor it misreports only while
      nothing was evicted yet and the log starts beyond the cursor; a zero cursor never
      reports a gap, so it misreports as soon as a command after it is evicted. */
  lemma GapHonestIff(log: seq<Envelope>, base: nat, after: nat)
    requires Consecutive(log, base)
    ensures (GapReported(Retained(log), after) <==>
               PayloadsAfter(Retained(log), after) != PayloadsAfter(log, after))
      <==> (if after == 0 then |log| <= 1024 || base + |log| - 1024 <= 1
            else log == [] || base <= after + 1 || |log| > 1024)
  {
    ReplayCompleteIff(log, base, after);
  }

  /** For a live cursor the log reaches, no gap means the whole backlog was returned. */
  lemma NoGapMeansAll(log: seq<Envelope>, base: nat, after: nat)
    requires Consecutive(log, base) && 0 < after && base <= after + 1
    ensures !GapReported(Retained(log), after) <==>
      PayloadsAfter(Retained(log), after) == PayloadsAfter(log, after)
  {
    GapHonestIff(log, base, after);
  }

  /** A gap is reported although the buffer still holds everything ever sent. */
  lemma GapWithoutLoss()
    ensures var log := [Envelope(10, Heartbeat), Envelope(11, Heartbeat)];
      && Consecutive(log, 10) && GapReported(Retained(log), 5)
      && PayloadsAfter(Retained(log), 5) == PayloadsAfter(log, 5)
  {
  }

  function Heartbeats(n: nat): seq<Envelope> { seq(n, (k: nat) => Envelope(k + 1, Heartbeat)) }

  /** One entry beyond the buffer's capacity, and a zero cursor: a command is missing and no
      gap is reported. */
  lemma LossWithoutGap()
    ensures var log := Heartbeats(1025);
      && Consecutive(log, 1) && !GapReported(Retained(log), 0)
      && PayloadsAfter(Retained(log), 0) != PayloadsAfter(log, 0)
  {
    ReplayCompleteIff(Heartbeats(1025), 1, 0);
  }
}
