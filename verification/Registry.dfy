/** The agent's strategy registry: a desired slice is diffed against the running tasks by
    deployment id and config signature. Task handles are numbered in spawn order. */
module Registry {
  type Variables = map<string, string>

  datatype Descriptor = Descriptor(
    id: string, symbol: string, template: string, variables: Variables, credentials: seq<string>)

  datatype Running = Running(
    signature: int, handle: nat, symbol: string, template: string, variables: Variables,
    credentials: seq<string>)

  /** What is running, how many tasks were ever spawned, and which of them were aborted. */
  datatype State = State(running: map<string, Running>, spawned: nat, aborted: set<nat>)

  datatype Operation =
    | Reconcile(desired: seq<Descriptor>)
    | Patch(id: string, patch: Variables)
    | AbortAll

  type Signature = Descriptor -> int

  /** The first n descriptors keyed by id: of duplicates, the last. */
  function ById(desired: seq<Descriptor>, n: nat): (m: map<string, Descriptor>)
    requires n <= |desired|
  {
    if n == 0 then map[] else ById(desired, n - 1)[desired[n - 1].id := desired[n - 1]]
  }

  function Wanted(desired: seq<Descriptor>): map<string, Descriptor> { ById(desired, |desired|) }

  function Started(sig: Signature, d: Descriptor, handle: nat): Running {
    Running(sig(d), handle, d.symbol, d.template, d.variables, d.credentials)
  }

  /** An entry stays exactly when it is still wanted with the signature it was started with. */
  predicate Keeps(sig: Signature, running: map<string, Running>, wanted: map<string, Descriptor>, id: string) {
    id in running && id in wanted && sig(wanted[id]) == running[id].signature
  }

  function Handles(running: map<string, Running>, ids: set<string>): set<nat>
    requires ids <= running.Keys
  {
    set id | id in ids :: running[id].handle
  }

  predicate Distinct(running: map<string, Running>, ids: set<string>)
    requires ids <= running.Keys
  {
    forall i, j :: i in ids && j in ids && running[i].handle == running[j].handle ==> i == j
  }

  /** The entries just started carry the next handles, each once. */
  ghost predicate Numbered(running: map<string, Running>, from: nat, to: nat, started: set<string>)
    requires started <= running.Keys
  {
    && from <= to && Distinct(running, started)
    && (forall h :: h in Handles(running, started) <==> from <= h < to)
  }

  function Fresh(sig: Signature, a: State, wanted: map<string, Descriptor>): set<string> {
    set id | id in wanted && !Keeps(sig, a.running, wanted, id)
  }

  function Stale(sig: Signature, a: State, wanted: map<string, Descriptor>): set<string> {
    set id | id in a.running && !Keeps(sig, a.running, wanted, id)
  }

  /** What one reconcile does, whatever order the tasks are spawned in. */
  ghost predicate Reconciled(sig: Signature, a: State, desired: seq<Descriptor>, b: State) {
    var wanted := Wanted(desired);
    && b.running.Keys == wanted.Keys
    && (forall id :: id in wanted && Keeps(sig, a.running, wanted, id) ==> b.running[id] == a.running[id])
    && (forall id :: id in Fresh(sig, a, wanted) ==>
          b.running[id] == Started(sig, wanted[id], b.running[id].handle))
    && Numbered(b.running, a.spawned, b.spawned, Fresh(sig, a, wanted))
    && b.aborted == a.aborted + Handles(a.running, Stale(sig, a, wanted))
  }

  predicate Patched(a: State, id: string, patch: Variables, b: State) {
    if id !in a.running then b == a
    else b == a.(running := a.running[id := a.running[id].(variables := a.running[id].variables + patch)])
  }

  predicate AllAborted(a: State, b: State) {
    b == State(map[], a.spawned, a.aborted + Handles(a.running, a.running.Keys))
  }

  ghost predicate Steps(sig: Signature, a: State, op: Operation, b: State) {
    match op
    case Reconcile(desired) => Reconciled(sig, a, desired, b)
    case Patch(id, patch) => Patched(a, id, patch, b)
    case AbortAll => AllAborted(a, b)
  }

  /** Every task ever spawned is either running, under one id, or aborted, and never both. */
  ghost predicate Conserved(s: State) {
    && Distinct(s.running, s.running.Keys)
    && (forall h :: h in Handles(s.running, s.running.Keys) ==> h !in s.aborted)
    && (forall h :: h in Handles(s.running, s.running.Keys) || h in s.aborted <==> 0 <= h < s.spawned)
  }

  lemma HandlesGrow(running: map<string, Running>, ids: set<string>, id: string)
    requires ids <= running.Keys && id in running
    ensures Handles(running, ids + {id}) == Handles(running, ids) + {running[id].handle}
  {
    assert id in ids + {id};
    forall h | h in Handles(running, ids) ensures h in Handles(running, ids + {id}) {
      var i :| i in ids && running[i].handle == h;
      assert i in ids + {id};
    }
  }

  lemma HandlesSame(running: map<string, Running>, other: map<string, Running>, ids: set<string>)
    requires ids <= running.Keys && ids <= other.Keys
    requires forall id :: id in ids ==> running[id].handle == other[id].handle
    ensures Handles(running, ids) == Handles(other, ids)
    ensures Distinct(running, ids) <==> Distinct(other, ids)
  {
  }

  lemma NumberedGrows(
      running: map<string, Running>, from: nat, to: nat, started: set<string>, id: string)
    requires started <= running.Keys && id in running && id !in started && to > 0
    requires Numbered(running, from, to - 1, started) && running[id].handle == to - 1
    ensures Numbered(running, from, to, started + {id})
  {
    HandlesGrow(running, started, id);
    forall i | i in started ensures running[i].handle != to - 1 {
      assert running[i].handle in Handles(running, started);
    }
  }

  /** The registry with some entries aborted and dropped. */
  function Without(a: State, ids: set<string>): State
    requires ids <= a.running.Keys
  {
    State(a.running - ids, a.spawned, a.aborted + Handles(a.running, ids))
  }

  lemma WithoutOneMore(a: State, ids: set<string>, left: set<string>, id: string)
    requires Conserved(a) && left <= ids <= a.running.Keys && id in left
    ensures var b := Without(a, ids - left);
      && id in b.running && b.running[id].handle !in b.aborted
      && Without(a, ids - (left - {id})) == Without(b, {id})
  {
    var gone := ids - left;
    var b := Without(a, gone);
    HandlesGrow(a.running, gone, id);
    assert ids - (left - {id}) == gone + {id};
    assert Handles(b.running, {id}) == {a.running[id].handle};
    assert a.running[id].handle in Handles(a.running, a.running.Keys);
    assert a.running - (gone + {id}) == b.running - {id};
  }

  function Begun(sig: Signature, a: State, d: Descriptor): State {
    State(a.running[d.id := Started(sig, d, a.spawned)], a.spawned + 1, a.aborted)
  }

  /** `b` has, on top of `a`, started every visited id that was not running. */
  ghost predicate SpawnedFrom(
      sig: Signature, a: State, wanted: map<string, Descriptor>, visited: set<string>, b: State)
  {
    && visited <= wanted.Keys
    && b.running.Keys == a.running.Keys + visited
    && (forall id :: id in a.running ==> b.running[id] == a.running[id])
    && (forall id :: id in visited - a.running.Keys ==>
          b.running[id] == Started(sig, wanted[id], b.running[id].handle))
    && Numbered(b.running, a.spawned, b.spawned, visited - a.running.Keys)
    && b.aborted == a.aborted
  }

  function Visited(sig: Signature, a: State, d: Descriptor): State {
    if d.id in a.running then a else Begun(sig, a, d)
  }

  lemma NothingVisited(sig: Signature, a: State, wanted: map<string, Descriptor>)
    ensures SpawnedFrom(sig, a, wanted, wanted.Keys - wanted.Keys, a)
  {
    assert wanted.Keys - wanted.Keys == {};
    assert {} - a.running.Keys == {};
  }

  lemma VisitOneMore(
      sig: Signature, a: State, wanted: map<string, Descriptor>, left: set<string>, b: State, id: string)
    requires left <= wanted.Keys && SpawnedFrom(sig, a, wanted, wanted.Keys - left, b)
    requires id in left && wanted[id].id == id
    ensures SpawnedFrom(sig, a, wanted, wanted.Keys - (left - {id}), Visited(sig, b, wanted[id]))
  {
    var visited := wanted.Keys - left;
    var started := visited - a.running.Keys;
    assert wanted.Keys - (left - {id}) == visited + {id};
    if id in b.running {
      assert visited + {id} - a.running.Keys == started;
    } else {
      var c := Begun(sig, b, wanted[id]);
      assert visited + {id} - a.running.Keys == started + {id};
      HandlesSame(b.running, c.running, started);
      NumberedGrows(c.running, a.spawned, c.spawned, started, id);
    }
  }

  lemma TwoPhases(sig: Signature, a: State, desired: seq<Descriptor>, b: State, c: State)
    requires var wanted := Wanted(desired);
      b == Without(a, Stale(sig, a, wanted)) && SpawnedFrom(sig, b, wanted, wanted.Keys, c)
    ensures Reconciled(sig, a, desired, c)
  {
    var wanted := Wanted(desired);
    assert wanted.Keys - b.running.Keys == Fresh(sig, a, wanted);
    assert b.running.Keys + wanted.Keys == wanted.Keys;
  }

  class StrategyRegistry {
    const sig: Signature
    var running: map<string, Running>
    var spawned: nat
    var aborted: set<nat>

    function Abstract(): State
      reads this
    {
      State(running, spawned, aborted)
    }

    constructor (sig: Signature)
      ensures Abstract() == State(map[], 0, {}) && this.sig == sig
    {
      this.sig, running, spawned, aborted := sig, map[], 0, {};
    }

    /** A task is aborted at most once: its handle is consumed. */
    method Abort(id: string)
      requires id in running && running[id].handle !in aborted
      modifies this
      ensures Abstract() == Without(old(Abstract()), {id})
    {
      ghost var a := Abstract();
      aborted := aborted + {running[id].handle};
      running := running - {id};
      assert Handles(a.running, {id}) == {a.running[id].handle};
    }

    method Spawn(d: Descriptor)
      modifies this
      ensures Abstract() == Begun(sig, old(Abstract()), d)
    {
      running := running[d.id := Started(sig, d, spawned)];
      spawned := spawned + 1;
    }

    method Visit(d: Descriptor)
      modifies this
      ensures Abstract() == Visited(sig, old(Abstract()), d)
    {
      if d.id !in running { Spawn(d); }
    }

    method AbortEach(ids: set<string>)
      requires Conserved(Abstract()) && ids <= running.Keys
      modifies this
      ensures Abstract() == Without(old(Abstract()), ids)
    {
      ghost var a := Abstract();
      var left := ids;
      assert Without(a, ids - left) == a;
      while left != {}
        invariant left <= ids && Abstract() == Without(a, ids - left)
        decreases |left|
      {
        var id :| id in left;
        WithoutOneMore(a, ids, left, id);
        Abort(id);
        left := left - {id};
      }
      assert ids - left == ids;
    }

    method SpawnMissing(wanted: map<string, Descriptor>)
      requires forall id :: id in wanted ==> wanted[id].id == id
      modifies this
      ensures SpawnedFrom(sig, old(Abstract()), wanted, wanted.Keys, Abstract())
    {
      ghost var a, b := Abstract(), Abstract();
      var left := wanted.Keys;
      NothingVisited(sig, a, wanted);
      while left != {}
        invariant left <= wanted.Keys && Abstract() == b
        invariant SpawnedFrom(sig, a, wanted, wanted.Keys - left, b)
        decreases |left|
      {
        var id :| id in left;
        VisitOneMore(sig, a, wanted, left, b, id);
        left := left - {id};
        Visit(wanted[id]);
        b := Visited(sig, b, wanted[id]);
      }
      assert wanted.Keys - left == wanted.Keys;
    }

    method Reconcile(desired: seq<Descriptor>)
      requires Conserved(Abstract())
      modifies this
      ensures Reconciled(sig, old(Abstract()), desired, Abstract())
    {
      ghost var a := Abstract();
      var wanted := Wanted(desired);
      IdsMatch(desired, |desired|);
      var stale := set id | id in running && !Keeps(sig, running, wanted, id);
      AbortEach(stale);
      SpawnMissing(wanted);
      TwoPhases(sig, a, desired, Without(a, stale), Abstract());
    }

    method PatchVariables(id: string, patch: Variables) returns (found: bool)
      modifies this
      ensures Patched(old(Abstract()), id, patch, Abstract()) && found == (id in old(running))
    {
      if id !in running { return false; }
      running := running[id := running[id].(variables := running[id].variables + patch)];
      return true;
    }

    method AbortEverything()
      requires Conserved(Abstract())
      modifies this
      ensures AllAborted(old(Abstract()), Abstract())
    {
      ghost var a := Abstract();
      AbortEach(running.Keys);
      assert a.running - a.running.Keys == map[];
    }
  }

  lemma {:induction false} IdsMatch(desired: seq<Descriptor>, n: nat)
    requires n <= |desired|
    ensures forall id :: id in ById(desired, n) ==> ById(desired, n)[id].id == id
    ensures forall id :: id in ById(desired, n) <==> exists k :: 0 <= k < n && desired[k].id == id
  {
    if n > 0 { IdsMatch(desired, n - 1); }
  }

  /** Among descriptors of one id the last one listed is wanted. */
  lemma {:induction false} LastWins(desired: seq<Descriptor>, n: nat, k: nat)
    requires k < n <= |desired| && forall j :: k < j < n ==> desired[j].id != desired[k].id
    ensures desired[k].id in ById(desired, n) && ById(desired, n)[desired[k].id] == desired[k]
  {
    if k < n - 1 { LastWins(desired, n - 1, k); }
  }

  /** No later descriptor has this one's id. */
  predicate LastOfId(desired: seq<Descriptor>, k: nat)
    requires k < |desired|
  {
    forall j :: k < j < |desired| ==> desired[j].id != desired[k].id
  }

  /** An entry shows everything of the descriptor it was started from. */
  predicate Shows(sig: Signature, r: Running, d: Descriptor) {
    && r.signature == sig(d) && r.symbol == d.symbol && r.template == d.template
    && r.variables == d.variables && r.credentials == d.credentials
  }

  /** The running ids are the desired ids. The last descriptor of an id leaves an entry of its
      own signature untouched, same task and same live variables, and otherwise is shown by an
      entry with a new task. */
  lemma ReconcileConverges(
      sig: Signature, a: State, desired: seq<Descriptor>, b: State, k: nat)
    requires Reconciled(sig, a, desired, b) && k < |desired| && LastOfId(desired, k)
    ensures var d := desired[k];
      && d.id in b.running && b.running[d.id].signature == sig(d)
      && (d.id in a.running && a.running[d.id].signature == sig(d) ==> b.running[d.id] == a.running[d.id])
      && (d.id !in a.running || a.running[d.id].signature != sig(d) ==>
            Shows(sig, b.running[d.id], d) && a.spawned <= b.running[d.id].handle < b.spawned)
    ensures forall id :: id in b.running <==> exists j :: 0 <= j < |desired| && desired[j].id == id
  {
    LastWins(desired, |desired|, k);
    IdsMatch(desired, |desired|);
    var d := desired[k];
    if !Keeps(sig, a.running, Wanted(desired), d.id) {
      assert d.id in Fresh(sig, a, Wanted(desired));
      assert b.running[d.id].handle in Handles(b.running, Fresh(sig, a, Wanted(desired)));
    }
  }

  /** Exactly the running tasks no last descriptor matches in id and signature are aborted. */
  lemma ReconcileAborts(sig: Signature, a: State, desired: seq<Descriptor>, b: State, id: string)
    requires Conserved(a) && Reconciled(sig, a, desired, b) && id in a.running
    ensures a.running[id].handle in b.aborted <==>
      !exists k :: 0 <= k < |desired| && LastOfId(desired, k)
                   && desired[k].id == id && sig(desired[k]) == a.running[id].signature
  {
    var wanted := Wanted(desired);
    var h := a.running[id].handle;
    assert h in Handles(a.running, a.running.Keys);
    if id in wanted {
      var k := LastIndex(desired, |desired|, id);
      assert LastOfId(desired, k);
      forall l | 0 <= l < |desired| && LastOfId(desired, l) && desired[l].id == id ensures l == k {
      }
    } else {
      IdsMatch(desired, |desired|);
    }
    assert h in Handles(a.running, Stale(sig, a, wanted)) <==> id in Stale(sig, a, wanted);
  }

  lemma {:induction false} LastIndex(desired: seq<Descriptor>, n: nat, id: string) returns (k: nat)
    requires n <= |desired| && id in ById(desired, n)
    ensures k < n && desired[k].id == id && ById(desired, n)[id] == desired[k]
    ensures forall j :: k < j < n ==> desired[j].id != id
  {
    if desired[n - 1].id == id {
      k := n - 1;
    } else {
      k := LastIndex(desired, n - 1, id);
    }
  }

  /** Reconciling twice with one slice spawns and aborts nothing the second time. */
  lemma RepeatIsNoOp(sig: Signature, a: State, desired: seq<Descriptor>, b: State, c: State)
    requires Reconciled(sig, a, desired, b) && Reconciled(sig, b, desired, c)
    ensures c == b
  {
    var wanted := Wanted(desired);
    forall id | id in wanted ensures Keeps(sig, b.running, wanted, id) {
      if !Keeps(sig, a.running, wanted, id) { assert id in Fresh(sig, a, wanted); }
    }
    assert Fresh(sig, b, wanted) == {} && Stale(sig, b, wanted) == {};
    assert b.spawned !in Handles(c.running, {});
    assert c.running == b.running;
  }

  lemma ReconcileConserves(sig: Signature, a: State, desired: seq<Descriptor>, b: State)
    requires Conserved(a) && Reconciled(sig, a, desired, b)
    ensures Conserved(b)
  {
    var wanted := Wanted(desired);
    var begun, stale := Fresh(sig, a, wanted), Stale(sig, a, wanted);
    var kept := a.running.Keys - stale;
    assert b.running.Keys == kept + begun && a.running.Keys == kept + stale;
    HandlesSame(a.running, b.running, kept);
    HandlesUnion(a.running, kept, stale);
    HandlesUnion(b.running, kept, begun);
    forall i, j | i in kept && j in begun ensures b.running[i].handle != b.running[j].handle {
      assert b.running[i].handle in Handles(a.running, a.running.Keys);
      assert b.running[j].handle in Handles(b.running, begun);
    }
    forall i, j | i in kept && j in stale ensures a.running[i].handle != a.running[j].handle {
    }
  }

  lemma HandlesUnion(running: map<string, Running>, a: set<string>, b: set<string>)
    requires a + b <= running.Keys
    ensures Handles(running, a + b) == Handles(running, a) + Handles(running, b)
  {
  }

  lemma PatchConserves(a: State, id: string, patch: Variables, b: State)
    requires Conserved(a) && Patched(a, id, patch, b)
    ensures Conserved(b)
  {
    assert b.running.Keys == a.running.Keys;
    HandlesSame(a.running, b.running, a.running.Keys);
  }

  ghost predicate StepAt(sig: Signature, states: seq<State>, ops: seq<Operation>, k: nat)
    requires |states| == |ops| + 1 && k < |ops|
  {
    Steps(sig, states[k], ops[k], states[k + 1])
  }

  /** A run: the states before and after each operation, from an empty registry. */
  ghost predicate IsRun(sig: Signature, states: seq<State>, ops: seq<Operation>) {
    && |states| == |ops| + 1 && states[0] == State(map[], 0, {})
    && (forall k :: 0 <= k < |ops| ==> StepAt(sig, states, ops, k))
  }

  /** Over every run, every spawned task is exactly one of running or aborted. */
  lemma {:induction false} RunConserves(sig: Signature, states: seq<State>, ops: seq<Operation>, n: nat)
    requires IsRun(sig, states, ops) && n <= |ops|
    ensures Conserved(states[n])
  {
    if n > 0 {
      RunConserves(sig, states, ops, n - 1);
      assert StepAt(sig, states, ops, n - 1);
      match ops[n - 1]
      case Reconcile(desired) => ReconcileConserves(sig, states[n - 1], desired, states[n]);
      case Patch(id, patch) => PatchConserves(states[n - 1], id, patch, states[n]);
      case AbortAll =>
    }
  }

  /** The patches of operations [from, to) that were addressed to one deployment, overlaid. */
  function Overlaid(base: Variables, ops: seq<Operation>, from: nat, to: nat, id: string): Variables
    requires from <= to <= |ops|
  {
    if from == to then base
    else
      var v := Overlaid(base, ops, from, to - 1, id);
      if ops[to - 1].Patch? && ops[to - 1].id == id then v + ops[to - 1].patch else v
  }

  /** Where a live entry comes from: this step's reconcile, or the state before it. */
  ghost predicate BegunAt(sig: Signature, a: State, op: Operation, b: State, id: string) {
    && id in b.running && op.Reconcile? && id in Wanted(op.desired)
    && a.spawned <= b.running[id].handle < b.spawned
    && b.running[id] == Started(sig, Wanted(op.desired)[id], b.running[id].handle)
  }

  lemma EntryStep(sig: Signature, states: seq<State>, ops: seq<Operation>, k: nat, id: string)
    requires IsRun(sig, states, ops) && k < |ops| && id in states[k + 1].running
    ensures var a, op, b := states[k], ops[k], states[k + 1];
      || BegunAt(sig, a, op, b, id)
      || (id in a.running && b.running[id] == a.running[id].(variables :=
            if op.Patch? && op.id == id then a.running[id].variables + op.patch else a.running[id].variables))
  {
    assert StepAt(sig, states, ops, k);
    var a, op, b := states[k], ops[k], states[k + 1];
    if op.Reconcile? {
      var wanted := Wanted(op.desired);
      if !Keeps(sig, a.running, wanted, id) {
        assert id in Fresh(sig, a, wanted);
        assert b.running[id].handle in Handles(b.running, Fresh(sig, a, wanted));
      }
    }
  }

  predicate PatchesKey(op: Operation, id: string, key: string) {
    op.Patch? && op.id == id && key in op.patch
  }

  /** The last patch of a key wins ... */
  lemma {:induction false} LastPatchWins(
      base: Variables, ops: seq<Operation>, from: nat, to: nat, id: string, key: string, k: nat)
    requires from <= k < to <= |ops| && PatchesKey(ops[k], id, key)
    requires forall l :: k < l < to ==> !PatchesKey(ops[l], id, key)
    ensures var v := Overlaid(base, ops, from, to, id); key in v && v[key] == ops[k].patch[key]
  {
    if k < to - 1 {
      assert !PatchesKey(ops[to - 1], id, key);
      LastPatchWins(base, ops, from, to - 1, id, key, k);
    }
  }

  /** ... and a key never patched keeps its base value, or its absence. */
  lemma {:induction false} UnpatchedKeeps(
      base: Variables, ops: seq<Operation>, from: nat, to: nat, id: string, key: string)
    requires from <= to <= |ops| && forall l :: from <= l < to ==> !PatchesKey(ops[l], id, key)
    ensures var v := Overlaid(base, ops, from, to, id);
      (key in v <==> key in base) && (key in base ==> v[key] == base[key])
  {
    if from < to {
      assert !PatchesKey(ops[to - 1], id, key);
      UnpatchedKeeps(base, ops, from, to - 1, id, key);
    }
  }

  /** Over every run, each live entry was spawned by one reconcile, from the last descriptor of
      its id there, and shows that descriptor overlaid by exactly the patches addressed to it
      since. */
  lemma {:induction false} LiveEntryHistory(
      sig: Signature, states: seq<State>, ops: seq<Operation>, n: nat, id: string) returns (k: nat, i: nat)
    requires IsRun(sig, states, ops) && n <= |ops| && id in states[n].running
    ensures k < n && ops[k].Reconcile? && i < |ops[k].desired|
    ensures LastOfId(ops[k].desired, i) && ops[k].desired[i].id == id
    ensures states[k].spawned <= states[n].running[id].handle < states[k + 1].spawned
    ensures var d := ops[k].desired[i];
      var variables := Overlaid(d.variables, ops, k + 1, n, id);
      states[n].running[id].variables == variables
      && Shows(sig, states[n].running[id].(variables := d.variables), d)
  {
    EntryStep(sig, states, ops, n - 1, id);
    if BegunAt(sig, states[n - 1], ops[n - 1], states[n], id) {
      k := n - 1;
      i := LastIndex(ops[k].desired, |ops[k].desired|, id);
    } else {
      k, i := LiveEntryHistory(sig, states, ops, n - 1, id);
    }
  }

  /** Over every run, aborting everything leaves nothing running and every task ever spawned
      aborted. */
  lemma AbortAllEnds(sig: Signature, states: seq<State>, ops: seq<Operation>, n: nat)
    requires IsRun(sig, states, ops) && n < |ops| && ops[n].AbortAll?
    ensures var a, b := states[n], states[n + 1];
      && b.running == map[] && b.spawned == a.spawned
      && (forall h :: h in b.aborted <==> 0 <= h < a.spawned)
  {
    RunConserves(sig, states, ops, n);
    assert StepAt(sig, states, ops, n);
  }
}
