/** Which node kinds behave differently between a deployed and a replayed graph tick. Values
    are their serialised form; `leq` is the order strings are sorted by. */
module TraceDiff {
  import opened Sorting

  datatype Output = Output(port: string, value: string)

  datatype Node = Node(kind: string, isSource: bool, outputs: seq<Output>)

  type Order = (string, string) -> bool

  /** A node kind and one of its output ports. */
  type Key = (string, string)

  type Table = map<Key, seq<string>>

  /** The values of the first n outputs on one port. */
  function PortValues(outputs: seq<Output>, n: nat, port: string): seq<string>
    requires n <= |outputs|
  {
    if n == 0 then []
    else
      var before := PortValues(outputs, n - 1, port);
      if outputs[n - 1].port == port then before + [outputs[n - 1].value] else before
  }

  function NodeValues(node: Node, n: nat, key: Key): seq<string>
    requires n <= |node.outputs|
  {
    if node.isSource || node.kind != key.0 then [] else PortValues(node.outputs, n, key.1)
  }

  /** What the first n nodes show under one key, in trace order. */
  function Values(nodes: seq<Node>, n: nat, key: Key): seq<string>
    requires n <= |nodes|
  {
    if n == 0 then []
    else Values(nodes, n - 1, key) + NodeValues(nodes[n - 1], |nodes[n - 1].outputs|, key)
  }

  /** The same regardless of order. */
  function Aggregate(nodes: seq<Node>, key: Key): multiset<string> {
    multiset(Values(nodes, |nodes|, key))
  }

  ghost predicate Diverges(deployed: seq<Node>, candidate: seq<Node>, kind: string) {
    exists port: string :: Aggregate(deployed, (kind, port)) != Aggregate(candidate, (kind, port))
  }

  function Lookup(m: Table, key: Key): seq<string> { if key in m then m[key] else [] }

  predicate NoneEmpty(m: Table) { forall key :: key in m ==> m[key] != [] }

  ghost predicate Tabulates(m: Table, nodes: seq<Node>, n: nat)
    requires n <= |nodes|
  {
    NoneEmpty(m) && forall key: Key :: Lookup(m, key) == Values(nodes, n, key)
  }

  /** All of the first i nodes and the first j outputs of the next. */
  ghost predicate PartlyTabulates(m: Table, nodes: seq<Node>, i: nat, j: nat)
    requires i < |nodes| && j <= |nodes[i].outputs|
  {
    NoneEmpty(m) && forall key: Key :: Lookup(m, key) == Values(nodes, i, key) + NodeValues(nodes[i], j, key)
  }

  function Pushed(m: Table, key: Key, value: string): Table { m[key := Lookup(m, key) + [value]] }

  lemma PushShows(node: Node, j: nat, key: Key)
    requires j < |node.outputs| && !node.isSource
    ensures NodeValues(node, j + 1, key) == NodeValues(node, j, key)
      + if key == (node.kind, node.outputs[j].port) then [node.outputs[j].value] else []
  {
    assert key == (key.0, key.1);
  }

  lemma PushLooksUp(m: Table, nodes: seq<Node>, i: nat, j: nat, key: Key)
    requires i < |nodes| && j < |nodes[i].outputs| && !nodes[i].isSource
    requires Lookup(m, key) == Values(nodes, i, key) + NodeValues(nodes[i], j, key)
    ensures Lookup(Pushed(m, (nodes[i].kind, nodes[i].outputs[j].port), nodes[i].outputs[j].value), key)
      == Values(nodes, i, key) + NodeValues(nodes[i], j + 1, key)
  {
    var before, shown := Values(nodes, i, key), NodeValues(nodes[i], j, key);
    var added := if key == (nodes[i].kind, nodes[i].outputs[j].port) then [nodes[i].outputs[j].value] else [];
    PushShows(nodes[i], j, key);
    assert (before + shown) + added == before + (shown + added);
  }

  lemma PushTabulates(m: Table, nodes: seq<Node>, i: nat, j: nat)
    requires i < |nodes| && j < |nodes[i].outputs| && !nodes[i].isSource
    requires PartlyTabulates(m, nodes, i, j)
    ensures PartlyTabulates(
      Pushed(m, (nodes[i].kind, nodes[i].outputs[j].port), nodes[i].outputs[j].value), nodes, i, j + 1)
  {
    var after := Pushed(m, (nodes[i].kind, nodes[i].outputs[j].port), nodes[i].outputs[j].value);
    forall key: Key ensures Lookup(after, key) == Values(nodes, i, key) + NodeValues(nodes[i], j + 1, key) {
      PushLooksUp(m, nodes, i, j, key);
    }
  }

  lemma NodeStarts(m: Table, nodes: seq<Node>, i: nat)
    requires i < |nodes| && Tabulates(m, nodes, i)
    ensures PartlyTabulates(m, nodes, i, 0)
    ensures nodes[i].isSource ==> Tabulates(m, nodes, i + 1)
  {
  }

  lemma NodeEnds(m: Table, nodes: seq<Node>, i: nat)
    requires i < |nodes| && PartlyTabulates(m, nodes, i, |nodes[i].outputs|)
    ensures Tabulates(m, nodes, i + 1)
  {
  }

  ghost predicate SortedTable(leq: Order, m: Table, nodes: seq<Node>) {
    NoneEmpty(m) && forall key: Key :: Lookup(m, key) == Sort(leq, Values(nodes, |nodes|, key))
  }

  lemma SortingTabulates(leq: Order, m: Table, nodes: seq<Node>)
    requires Tabulates(m, nodes, |nodes|)
    ensures SortedTable(leq, map key | key in m :: Sort(leq, m[key]), nodes)
  {
    var s := map key | key in m :: Sort(leq, m[key]);
    forall key: Key ensures Lookup(s, key) == Sort(leq, Values(nodes, |nodes|, key)) {
      assert Lookup(m, key) == Values(nodes, |nodes|, key);
    }
  }

  method Collect(leq: Order, nodes: seq<Node>) returns (m: Table)
    ensures SortedTable(leq, m, nodes)
  {
    m := map[];
    for i := 0 to |nodes|
      invariant Tabulates(m, nodes, i)
    {
      NodeStarts(m, nodes, i);
      if !nodes[i].isSource {
        for j := 0 to |nodes[i].outputs|
          invariant PartlyTabulates(m, nodes, i, j)
        {
          PushTabulates(m, nodes, i, j);
          m := Pushed(m, (nodes[i].kind, nodes[i].outputs[j].port), nodes[i].outputs[j].value);
        }
        NodeEnds(m, nodes, i);
      }
    }
    SortingTabulates(leq, m, nodes);
    m := map key | key in m :: Sort(leq, m[key]);
  }

  function DifferingKinds(dep: Table, can: Table, keys: set<Key>): set<string> {
    set key | key in keys && Lookup(dep, key) != Lookup(can, key) :: key.0
  }

  lemma OneMoreKey(dep: Table, can: Table, keys: set<Key>, key: Key)
    ensures DifferingKinds(dep, can, keys + {key})
      == DifferingKinds(dep, can, keys) + if Lookup(dep, key) != Lookup(can, key) then {key.0} else {}
  {
    var more := DifferingKinds(dep, can, keys + {key});
    forall kind | kind in DifferingKinds(dep, can, keys) ensures kind in more {
      var k :| k in keys && Lookup(dep, k) != Lookup(can, k) && k.0 == kind;
      assert k in keys + {key};
    }
    if Lookup(dep, key) != Lookup(can, key) { assert key in keys + {key}; }
  }

  /** Comparing sorted tables is comparing multisets. */
  lemma TablesDecide(leq: Order, dep: Table, can: Table, deployed: seq<Node>, candidate: seq<Node>)
    requires TotalOrder(leq) && SortedTable(leq, dep, deployed) && SortedTable(leq, can, candidate)
    ensures forall kind ::
      kind in DifferingKinds(dep, can, dep.Keys + can.Keys) <==> Diverges(deployed, candidate, kind)
  {
    var kinds := DifferingKinds(dep, can, dep.Keys + can.Keys);
    forall key: Key
      ensures Lookup(dep, key) != Lookup(can, key) <==> Aggregate(deployed, key) != Aggregate(candidate, key)
    {
      SortCanonical(leq, Values(deployed, |deployed|, key), Values(candidate, |candidate|, key));
    }
    forall kind | kind in kinds ensures Diverges(deployed, candidate, kind) {
      var key :| key in dep.Keys + can.Keys && Lookup(dep, key) != Lookup(can, key) && key.0 == kind;
      assert key == (kind, key.1);
    }
    forall kind | Diverges(deployed, candidate, kind) ensures kind in kinds {
      var port: string :| Aggregate(deployed, (kind, port)) != Aggregate(candidate, (kind, port));
      var key := (kind, port);
      assert Lookup(dep, key) != Lookup(can, key);
      assert key in dep.Keys + can.Keys;
    }
  }

  lemma DeployedStep(dep: Table, can: Table, left: set<Key>, key: Key)
    requires left <= dep.Keys && key in left && NoneEmpty(dep)
    ensures DifferingKinds(dep, can, dep.Keys - (left - {key}))
      == DifferingKinds(dep, can, dep.Keys - left)
         + if key in can && can[key] == dep[key] then {} else {key.0}
  {
    assert dep.Keys - (left - {key}) == dep.Keys - left + {key};
    OneMoreKey(dep, can, dep.Keys - left, key);
  }

  lemma CandidateStep(dep: Table, can: Table, left: set<Key>, key: Key)
    requires left <= can.Keys && key in left && NoneEmpty(can)
    ensures DifferingKinds(dep, can, dep.Keys + (can.Keys - (left - {key})))
      == DifferingKinds(dep, can, dep.Keys + (can.Keys - left)) + if key in dep then {} else {key.0}
  {
    var done := dep.Keys + (can.Keys - left);
    assert dep.Keys + (can.Keys - (left - {key})) == done + {key};
    if key in dep { assert done + {key} == done; } else { OneMoreKey(dep, can, done, key); }
  }

  method DeployedPass(dep: Table, can: Table) returns (kinds: set<string>)
    requires NoneEmpty(dep)
    ensures kinds == DifferingKinds(dep, can, dep.Keys)
  {
    kinds := {};
    var left := dep.Keys;
    while left != {}
      invariant left <= dep.Keys && kinds == DifferingKinds(dep, can, dep.Keys - left)
      decreases |left|
    {
      var key :| key in left;
      DeployedStep(dep, can, left, key);
      if !(key in can && can[key] == dep[key]) { kinds := kinds + {key.0}; }
      left := left - {key};
    }
    assert dep.Keys - left == dep.Keys;
  }

  method CandidatePass(dep: Table, can: Table, before: set<string>) returns (kinds: set<string>)
    requires NoneEmpty(can) && before == DifferingKinds(dep, can, dep.Keys)
    ensures kinds == DifferingKinds(dep, can, dep.Keys + can.Keys)
  {
    kinds := before;
    var left := can.Keys;
    assert dep.Keys + (can.Keys - left) == dep.Keys;
    while left != {}
      invariant left <= can.Keys && kinds == DifferingKinds(dep, can, dep.Keys + (can.Keys - left))
      decreases |left|
    {
      var key :| key in left;
      CandidateStep(dep, can, left, key);
      if key !in dep { kinds := kinds + {key.0}; }
      left := left - {key};
    }
    assert can.Keys - left == can.Keys;
  }

  predicate NoRepeats(kinds: seq<string>) {
    forall i, j :: 0 <= i < j < |kinds| ==> kinds[i] != kinds[j]
  }

  lemma OnceEach(list: seq<string>, kinds: set<string>)
    requires multiset(list) == multiset(kinds)
    ensures NoRepeats(list) && forall kind :: kind in list <==> kind in kinds
  {
    forall i, j | 0 <= i < j < |list| ensures list[i] != list[j] {
      assert list == list[..j] + list[j..] && list[i] in multiset(list[..j]) && list[j] in multiset(list[j..]);
      assert multiset(list)[list[j]] == 1;
    }
    forall kind ensures kind in list <==> kind in kinds {
      assert kind in list <==> kind in multiset(list);
    }
  }

  /** The ordered set read out in ascending order. */
  method Ordered(leq: Order, kinds: set<string>) returns (list: seq<string>)
    requires TotalOrder(leq)
    ensures SortedBy(leq, list) && multiset(list) == multiset(kinds)
  {
    list := [];
    var left := kinds;
    while left != {}
      invariant left <= kinds && SortedBy(leq, list) && multiset(list) == multiset(kinds - left)
      decreases |left|
    {
      var kind :| kind in left;
      InsertSorted(leq, kind, list);
      InsertMembers(leq, kind, list);
      assert kinds - (left - {kind}) == kinds - left + {kind};
      list := Insert(leq, kind, list);
      left := left - {kind};
    }
    assert kinds - left == kinds;
  }

  /** The kinds reported, in ascending order and without repeats, are exactly those that on
      some port show different multisets of values. */
  method DivergingKinds(leq: Order, deployed: seq<Node>, candidate: seq<Node>) returns (kinds: seq<string>)
    requires TotalOrder(leq)
    ensures SortedBy(leq, kinds) && NoRepeats(kinds)
    ensures forall kind :: kind in kinds <==> Diverges(deployed, candidate, kind)
  {
    var dep := Collect(leq, deployed);
    var can := Collect(leq, candidate);
    var diverging := DeployedPass(dep, can);
    diverging := CandidatePass(dep, can, diverging);
    TablesDecide(leq, dep, can, deployed, candidate);
    kinds := Ordered(leq, diverging);
    OnceEach(kinds, diverging);
  }

  // ---- What the answer does not depend on ----

  lemma DivergesSymmetric(deployed: seq<Node>, candidate: seq<Node>, kind: string)
    ensures Diverges(deployed, candidate, kind) <==> Diverges(candidate, deployed, kind)
  {
    if Diverges(deployed, candidate, kind) {
      var port: string :| Aggregate(deployed, (kind, port)) != Aggregate(candidate, (kind, port));
      assert Aggregate(candidate, (kind, port)) != Aggregate(deployed, (kind, port));
    }
  }

  lemma {:induction false} ValuesOfPrefix(nodes: seq<Node>, longer: seq<Node>, n: nat, key: Key)
    requires n <= |nodes| <= |longer| && nodes == longer[..|nodes|]
    ensures Values(nodes, n, key) == Values(longer, n, key)
  {
    if n > 0 {
      assert nodes[n - 1] == longer[n - 1];
      ValuesOfPrefix(nodes, longer, n - 1, key);
    }
  }

  lemma {:induction false} ValuesConcat(a: seq<Node>, b: seq<Node>, n: nat, key: Key)
    requires n <= |b|
    ensures Values(a + b, |a| + n, key) == Values(a, |a|, key) + Values(b, n, key)
  {
    if n == 0 {
      ValuesOfPrefix(a, a + b, |a|, key);
    } else {
      ValuesConcat(a, b, n - 1, key);
      assert (a + b)[|a| + n - 1] == b[n - 1];
    }
  }

  lemma AggregateSplits(a: seq<Node>, b: seq<Node>, key: Key)
    ensures Aggregate(a + b, key) == Aggregate(a, key) + Aggregate(b, key)
  {
    ValuesConcat(a, b, |b|, key);
  }

  lemma {:induction false} PortValuesOfPrefix(outputs: seq<Output>, longer: seq<Output>, n: nat, port: string)
    requires n <= |outputs| <= |longer| && outputs == longer[..|outputs|]
    ensures PortValues(outputs, n, port) == PortValues(longer, n, port)
  {
    if n > 0 {
      assert outputs[n - 1] == longer[n - 1];
      PortValuesOfPrefix(outputs, longer, n - 1, port);
    }
  }

  lemma OneNode(node: Node, key: Key)
    ensures Aggregate([node], key) == multiset(NodeValues(node, |node.outputs|, key))
  {
    assert Values([node], 0, key) + NodeValues(node, |node.outputs|, key) == NodeValues(node, |node.outputs|, key);
  }

  /** What is compared: an empty trace and a node without outputs show nothing, and one more
      output of a node adds its value under the node's kind and its own port, unless the node
      is a source. */
  lemma AggregateGrows(nodes: seq<Node>, node: Node, output: Output, kind: string, port: string)
    ensures Aggregate([], (kind, port)) == multiset{}
    ensures node.outputs == [] ==> Aggregate(nodes + [node], (kind, port)) == Aggregate(nodes, (kind, port))
    ensures Aggregate(nodes + [node.(outputs := node.outputs + [output])], (kind, port))
      == Aggregate(nodes + [node], (kind, port))
         + if !node.isSource && node.kind == kind && output.port == port then multiset{output.value} else multiset{}
  {
    var key, longer := (kind, port), node.(outputs := node.outputs + [output]);
    AggregateSplits(nodes, [node], key);
    AggregateSplits(nodes, [longer], key);
    OneNode(node, key);
    OneNode(longer, key);
    PortValuesOfPrefix(node.outputs, longer.outputs, |node.outputs|, port);
  }

  lemma AggregateWithout(b: seq<Node>, i: nat, key: Key)
    requires i < |b|
    ensures Aggregate(b, key) == Aggregate([b[i]], key) + Aggregate(b[..i] + b[i + 1..], key)
    ensures multiset(b[..i] + b[i + 1..]) == multiset(b) - multiset{b[i]}
  {
    assert b == b[..i] + ([b[i]] + b[i + 1..]);
    AggregateSplits(b[..i], [b[i]] + b[i + 1..], key);
    AggregateSplits([b[i]], b[i + 1..], key);
    AggregateSplits(b[..i], b[i + 1..], key);
  }

  /** Takes one occurrence of a node out of a trace. */
  lemma TakeOut(b: seq<Node>, node: Node, key: Key) returns (rest: seq<Node>)
    requires node in multiset(b)
    ensures multiset(rest) == multiset(b) - multiset{node} && |rest| < |b|
    ensures Aggregate(b, key) == Aggregate([node], key) + Aggregate(rest, key)
  {
    var i :| 0 <= i < |b| && b[i] == node;
    AggregateWithout(b, i, key);
    rest := b[..i] + b[i + 1..];
  }

  lemma {:induction false} AggregateOfPermutation(a: seq<Node>, b: seq<Node>, key: Key)
    requires multiset(a) == multiset(b)
    ensures Aggregate(a, key) == Aggregate(b, key)
    decreases |a|
  {
    if a == [] {
      assert |multiset(b)| == |b|;
    } else {
      var node := a[0];
      assert node in multiset(a);
      var fewer := TakeOut(a, node, key);
      var rest := TakeOut(b, node, key);
      AggregateOfPermutation(fewer, rest, key);
    }
  }

  /** The order in which a trace lists its nodes never matters. */
  lemma ReorderingIsInvisible(
      deployed: seq<Node>, candidate: seq<Node>, reordered: seq<Node>, kind: string)
    requires multiset(candidate) == multiset(reordered)
    ensures Diverges(deployed, candidate, kind) <==> Diverges(deployed, reordered, kind)
    ensures !Diverges(candidate, reordered, kind)
  {
    forall port: string ensures Aggregate(candidate, (kind, port)) == Aggregate(reordered, (kind, port)) {
      AggregateOfPermutation(candidate, reordered, (kind, port));
    }
  }

  /** Source nodes are ignored entirely. */
  lemma SourcesAreInvisible(nodes: seq<Node>, source: Node, kind: string)
    requires source.isSource
    ensures !Diverges(nodes, nodes + [source], kind)
  {
    forall port: string ensures Aggregate(nodes, (kind, port)) == Aggregate(nodes + [source], (kind, port)) {
      AggregateSplits(nodes, [source], (kind, port));
      assert Values([source], 1, (kind, port)) == Values([source], 0, (kind, port)) + [];
    }
  }
}
