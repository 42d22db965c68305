/** ValidateChain: the method checks a graph the way the code does, the predicates say
    declaratively which errors and warnings it must report, and the two agree exactly. */
module Validate {
  import opened Text
  import opened Graph
  import opened Chains
  import CycleSearch

  datatype Problem =
    | NoNodes
    | BadChainMode
    | BlankKey(node: nat)
    | DuplicateKey(node: nat)
    | BadKind(node: nat)
    | NoProvider(node: nat)
    | BadMode(node: nat)
    | LogicalAnswer(node: nat)
    | StartAnswer(node: nat)
    | NegativeTimeout(node: nat)
    | TimeoutOutOfRange(node: nat)
    | NegativeRetries(node: nat)
    | TooManyRetries(node: nat)
    | NegativeDelay(node: nat)
    | BadPolicy(node: nat, outcome: Outcome)
    | NoProviderBlock
    | UnknownSource(edge: nat)
    | UnknownTarget(edge: nat)
    | BadCondition(edge: nat)
    | JoinWithoutBranches(node: nat)
    | NoStart
    | ManyStarts
    | StartWithoutNext(node: nat)
    | JoinWithoutNext(node: nat)
    | HasCycle
    | Unreachable(key: Key)

  datatype Warning =
    | StaleProvider(node: nat)
    | MayNotFinish(potential: int)
    | NotViaNext(key: Key)
    | StartFansOut(node: nat)
    | JoinInert(node: nat)

  datatype Validation = Validation(ok: bool, errors: set<Problem>, warnings: set<Warning>)

  // --- What has to be reported -----------------------------------------------

  function EffectiveMode(c: Chain): ChainMode {
    if c.mode.BlankChainMode? then FirstSuccess else c.mode
  }

  /** The index of the usable nodes: a node with a blank key never enters it. */
  function KnownNodes(c: Chain): map<Key, Node> {
    var m := NodeMap(c.nodes);
    map k | k in m && !Blank(k) :: m[k]
  }

  ghost function EntryKeys(c: Chain): set<Key> {
    set i | 0 <= i < |c.nodes| && (c.nodes[i].isStart || c.nodes[i].kind.StartKind?) :: c.nodes[i].key
  }

  ghost predicate SoleEntry(c: Chain) {
    |EntryKeys(c)| == 1
  }

  ghost function Entry(c: Chain): (k: Key)
    requires SoleEntry(c)
    ensures EntryKeys(c) == {k}
  {
    var k :| k in EntryKeys(c);
    SubsetCard({k}, EntryKeys(c));
    k
  }

  ghost function KnownArcsOf(c: Chain): Arcs {
    set e | e in AllArcs(c.edges) && e.0 in KnownNodes(c) && e.1 in KnownNodes(c)
  }

  predicate PolicyIsBad(p: Written<PolicyWord>) {
    !p.verbatim || p.word.OtherPolicy?
  }

  ghost predicate NodeProblem(c: Chain, i: nat, p: Problem)
    requires i < |c.nodes|
  {
    if Blank(c.nodes[i].key) then p == BlankKey(i)
    else IdentityProblem(c, i, p) || LimitProblem(c.nodes[i], i, p)
  }

  ghost predicate IdentityProblem(c: Chain, i: nat, p: Problem)
    requires i < |c.nodes|
  {
    var n := c.nodes[i];
    match p
    case DuplicateKey(j) => j == i && exists h :: 0 <= h < i && c.nodes[h].key == n.key
    case BadKind(j) => j == i && n.kind.OtherKind?
    case NoProvider(j) => j == i && IsProvider(n) && Blank(n.providerId)
    case BadMode(j) => j == i && (!n.mode.verbatim || n.mode.word.OtherMode?)
    case LogicalAnswer(j) => j == i && !IsProvider(n) && IsAnswer(n)
    case StartAnswer(j) => j == i && (n.kind.StartKind? || n.isStart) && IsAnswer(n) && n.mode.verbatim
    case _ => false
  }

  ghost predicate LimitProblem(n: Node, i: nat, p: Problem) {
    match p
    case NegativeTimeout(j) => j == i && n.timeoutMs < 0
    case TimeoutOutOfRange(j) => j == i && n.timeoutMs > 0 && !(1000 <= n.timeoutMs <= 120000)
    case NegativeRetries(j) => j == i && n.retries < 0
    case TooManyRetries(j) => j == i && n.retries > 10
    case NegativeDelay(j) => j == i && n.retryDelayMs < 0
    case BadPolicy(j, o) => j == i &&
      PolicyIsBad(match o case Success => n.onSuccess case Empty => n.onEmpty case Fail => n.onFail)
    case _ => false
  }

  ghost predicate EdgeProblem(c: Chain, i: nat, p: Problem)
    requires i < |c.edges|
  {
    var e := c.edges[i];
    match p
    case UnknownSource(j) => j == i && e.source !in KnownNodes(c)
    case UnknownTarget(j) => j == i && e.target !in KnownNodes(c)
    case BadCondition(j) => j == i && e.condition.OtherCondition?
    case _ => false
  }

  ghost predicate LogicalProblem(c: Chain, i: nat, p: Problem)
    requires i < |c.nodes|
  {
    var n := c.nodes[i];
    LogicalFlag(p, i,
                n.kind.JoinKind? && !HasBranch(c, n.key),
                SoleEntry(c) && n.kind.StartKind? && |NeutralOut(c.edges, n.key)| == 0,
                SoleEntry(c) && n.kind.JoinKind? && EffectiveMode(c).FullChain? && |NeutralIn(c.edges, n.key)| == 0)
  }

  predicate LogicalFlag(p: Problem, i: nat, joinWithoutBranches: bool, startWithoutNext: bool, joinWithoutNext: bool) {
    match p
    case JoinWithoutBranches(j) => j == i && joinWithoutBranches
    case StartWithoutNext(j) => j == i && startWithoutNext
    case JoinWithoutNext(j) => j == i && joinWithoutNext
    case _ => false
  }

  ghost predicate GlobalProblem(c: Chain, p: Problem) {
    if p.Unreachable? then p.key in KnownNodes(c) && SoleEntry(c) && !Reaches(AllArcs(c.edges), Entry(c), p.key)
    else
      ShapeFlag(p, c.mode.OtherChainMode?, !HasProvider(c), |EntryKeys(c)| == 0, |EntryKeys(c)| > 1,
        !Acyclic(KnownArcsOf(c)))
  }

  predicate ShapeFlag(p: Problem, badMode: bool, noProvider: bool, noStart: bool, manyStarts: bool, cyclic: bool) {
    match p
    case BadChainMode => badMode
    case NoProviderBlock => noProvider
    case NoStart => noStart
    case ManyStarts => manyStarts
    case HasCycle => cyclic
    case _ => false
  }

  ghost predicate HasBranch(c: Chain, k: Key) {
    exists j :: 0 <= j < |c.edges| && c.edges[j].target == k
  }

  ghost predicate HasProvider(c: Chain) {
    exists i :: 0 <= i < |c.nodes| && !Blank(c.nodes[i].key) && IsProvider(c.nodes[i])
  }

  ghost predicate SomeNode(c: Chain, p: Problem) {
    exists i :: 0 <= i < |c.nodes| && NodeProblem(c, i, p)
  }

  ghost predicate SomeEdge(c: Chain, p: Problem) {
    exists i :: 0 <= i < |c.edges| && EdgeProblem(c, i, p)
  }

  ghost predicate SomeLogical(c: Chain, p: Problem) {
    exists i :: 0 <= i < |c.nodes| && LogicalProblem(c, i, p)
  }

  ghost predicate MustReport(c: Chain, p: Problem) {
    if |c.nodes| == 0 then p == NoNodes
    else SomeNode(c, p) || SomeEdge(c, p) || SomeLogical(c, p) || GlobalProblem(c, p)
  }

  predicate Stale(n: Node) {
    !Blank(n.key) && !IsProvider(n) && !Blank(n.providerId)
  }

  ghost predicate Disconnected(c: Chain, k: Key)
    requires SoleEntry(c)
  {
    EffectiveMode(c).FullChain? && k in KnownNodes(c) &&
    Reaches(AllArcs(c.edges), Entry(c), k) && !Reaches(NeutralArcs(c.edges), Entry(c), k)
  }

  ghost predicate FansOut(c: Chain, k: Key)
    requires SoleEntry(c)
  {
    EffectiveMode(c).FirstSuccess? && k == Entry(c) && |NeutralOut(c.edges, k)| > 1
  }

  ghost predicate MustWarn(c: Chain, maxAttempts: int, w: Warning) {
    |c.nodes| > 0 &&
    match w
    case StaleProvider(i) => i < |c.nodes| && Stale(c.nodes[i])
    case MayNotFinish(potential) =>
      maxAttempts > 0 && SoleEntry(c) && potential == Potential(c, Entry(c)) && potential > maxAttempts
    case NotViaNext(k) => SoleEntry(c) && Disconnected(c, k)
    case StartFansOut(i) => SoleEntry(c) && i < |c.nodes| && FansOut(c, c.nodes[i].key)
    case JoinInert(i) => SoleEntry(c) && i < |c.nodes| && EffectiveMode(c).FirstSuccess? && c.nodes[i].kind.JoinKind?
  }

  /** The attempts the blocks reachable from the entry may start between them. */
  ghost function Potential(c: Chain, s: Key): int {
    Attempts(KnownNodes(c), ReachSet(AllArcs(c.edges), s))
  }

  ghost function NeutralOut(edges: seq<Edge>, k: Key): set<int> {
    set i | 0 <= i < |edges| && edges[i].source == k && Neutral(edges[i].condition)
  }

  ghost function NeutralIn(edges: seq<Edge>, k: Key): set<int> {
    set i | 0 <= i < |edges| && edges[i].target == k && Neutral(edges[i].condition)
  }

  /** A chain the validator accepts. */
  ghost predicate Accepts(c: Chain) {
    forall p :: !MustReport(c, p)
  }

  // --- The checks, in the order the code makes them ---------------------------

  method CountOut(edges: seq<Edge>, k: Key) returns (n: nat)
    ensures n == |NeutralOut(edges, k)|
  {
    n := 0;
    ghost var found: set<int> := {};
    for i := 0 to |edges|
      invariant found == set j | 0 <= j < i && edges[j].source == k && Neutral(edges[j].condition)
      invariant n == |found|
    {
      if edges[i].source == k && Neutral(edges[i].condition) {
        n := n + 1;
        found := found + {i};
      }
    }
    assert found == NeutralOut(edges, k);
  }

  method CountIn(edges: seq<Edge>, k: Key) returns (n: nat)
    ensures n == |NeutralIn(edges, k)|
  {
    n := 0;
    ghost var found: set<int> := {};
    for i := 0 to |edges|
      invariant found == set j | 0 <= j < i && edges[j].target == k && Neutral(edges[j].condition)
      invariant n == |found|
    {
      if edges[i].target == k && Neutral(edges[i].condition) {
        n := n + 1;
        found := found + {i};
      }
    }
    assert found == NeutralIn(edges, k);
  }

  function When(condition: bool, p: Problem): set<Problem> {
    if condition then {p} else {}
  }

  method CheckIdentity(c: Chain, i: nat, nodes: map<Key, Node>) returns (errors: set<Problem>)
    requires i < |c.nodes| && !Blank(c.nodes[i].key) && nodes == KnownNodes(Chain(c.mode, c.nodes[..i], c.edges))
    ensures forall p :: p in errors <==> IdentityProblem(c, i, p)
  {
    var n := c.nodes[i];
    assert n.key in nodes <==> exists h :: 0 <= h < i && c.nodes[h].key == n.key by {
      NodeMapSound(c.nodes[..i]);
      assert forall h :: 0 <= h < i ==> c.nodes[..i][h] == c.nodes[h];
    }
    errors := When(n.key in nodes, DuplicateKey(i)) + When(n.kind.OtherKind?, BadKind(i))
    + When(IsProvider(n) && Blank(n.providerId), NoProvider(i))
    + When(!n.mode.verbatim || n.mode.word.OtherMode?, BadMode(i))
    + When(!IsProvider(n) && IsAnswer(n), LogicalAnswer(i))
    + When((n.kind.StartKind? || n.isStart) && IsAnswer(n) && n.mode.verbatim, StartAnswer(i));
  }

  method CheckLimits(n: Node, i: nat) returns (errors: set<Problem>)
    ensures forall p :: p in errors <==> LimitProblem(n, i, p)
  {
    errors := When(n.timeoutMs < 0, NegativeTimeout(i))
    + When(n.timeoutMs > 0 && (n.timeoutMs < 1000 || n.timeoutMs > 120000), TimeoutOutOfRange(i))
    + When(n.retries < 0, NegativeRetries(i)) + When(n.retries > 10, TooManyRetries(i))
    + When(n.retryDelayMs < 0, NegativeDelay(i));
    errors := errors + When(PolicyIsBad(n.onSuccess), BadPolicy(i, Success))
    + When(PolicyIsBad(n.onEmpty), BadPolicy(i, Empty)) + When(PolicyIsBad(n.onFail), BadPolicy(i, Fail));
  }

  method CheckNode(c: Chain, i: nat, nodes: map<Key, Node>) returns (errors: set<Problem>)
    requires i < |c.nodes| && nodes == KnownNodes(Chain(c.mode, c.nodes[..i], c.edges))
    ensures forall p :: p in errors <==> NodeProblem(c, i, p)
  {
    if Blank(c.nodes[i].key) {
      return {BlankKey(i)};
    }
    var identity := CheckIdentity(c, i, nodes);
    var limits := CheckLimits(c.nodes[i], i);
    errors := identity + limits;
  }

  lemma KnownNext(c: Chain, i: nat)
    requires i < |c.nodes|
    ensures var known, n := KnownNodes(Chain(c.mode, c.nodes[..i], c.edges)), c.nodes[i];
            KnownNodes(Chain(c.mode, c.nodes[..i + 1], c.edges)) == if Blank(n.key) then known else known[n.key := n]
  {
    assert c.nodes[..i + 1][..i] == c.nodes[..i];
  }

  method CheckNodes(c: Chain) returns (nodes: map<Key, Node>, providers: nat, errors: set<Problem>,
          warnings: set<Warning>)
    ensures nodes == KnownNodes(c)
    ensures providers == 0 <==> !HasProvider(c)
    ensures forall p :: p in errors <==> SomeNode(c, p)
    ensures forall w :: w in warnings <==> w.StaleProvider? && MustWarn(c, 0, w)
  {
    nodes, providers, errors, warnings := map[], 0, {}, {};
    for i := 0 to |c.nodes|
      invariant nodes == KnownNodes(Chain(c.mode, c.nodes[..i], c.edges))
      invariant providers == 0 <==> forall j :: 0 <= j < i && !Blank(c.nodes[j].key) ==> !IsProvider(c.nodes[j])
      invariant forall p :: p in errors <==> exists j :: 0 <= j < i && NodeProblem(c, j, p)
      invariant forall w :: w in warnings <==> w.StaleProvider? && w.node < i && MustWarn(c, 0, w)
    {
      var n := c.nodes[i];
      KnownNext(c, i);
      var found := CheckNode(c, i, nodes);
      errors := errors + found;
      if !Blank(n.key) {
        nodes := nodes[n.key := n];
        if IsProvider(n) {
          providers := providers + 1;
        } else if !Blank(n.providerId) {
          warnings := warnings + {StaleProvider(i)};
        }
      }
    }
    assert c.nodes[..|c.nodes|] == c.nodes;
  }

  method CheckEdges(c: Chain, nodes: map<Key, Node>) returns (incoming: map<Key, nat>, errors: set<Problem>)
    requires nodes == KnownNodes(c)
    ensures forall k :: k in incoming <==> HasBranch(c, k)
    ensures forall p :: p in errors <==> SomeEdge(c, p)
  {
    incoming, errors := map[], {};
    for i := 0 to |c.edges|
      invariant forall k :: k in incoming <==> exists j :: 0 <= j < i && c.edges[j].target == k
      invariant forall p :: p in errors <==> exists j :: 0 <= j < i && EdgeProblem(c, j, p)
    {
      var e := c.edges[i];
      var found := When(e.source !in nodes, UnknownSource(i)) + When(e.target !in nodes, UnknownTarget(i))
      + When(e.condition.OtherCondition?, BadCondition(i));
      assert forall p :: p in found <==> EdgeProblem(c, i, p);
      errors := errors + found;
      incoming := incoming[e.target := (if e.target in incoming then incoming[e.target] else 0) + 1];
    }
  }

  method CollectEntries(c: Chain) returns (entry: set<Key>)
    ensures entry == EntryKeys(c)
  {
    entry := {};
    for i := 0 to |c.nodes|
      invariant entry == set j | 0 <= j < i && (c.nodes[j].isStart || c.nodes[j].kind.StartKind?) :: c.nodes[j].key
    {
      if c.nodes[i].isStart || c.nodes[i].kind.StartKind? {
        entry := entry + {c.nodes[i].key};
      }
    }
  }

  method CheckLogicalNode(c: Chain, i: nat, incoming: map<Key, nat>, soleEntry: bool) returns (errors: set<Problem>)
    requires i < |c.nodes| && (c.nodes[i].key in incoming <==> HasBranch(c, c.nodes[i].key))
    requires soleEntry == SoleEntry(c)
    ensures forall p :: p in errors <==> LogicalProblem(c, i, p)
  {
    var n := c.nodes[i];
    var outgoing := CountOut(c.edges, n.key);
    var joining := CountIn(c.edges, n.key);
    errors := ReportLogical(i, n.kind.JoinKind? && n.key !in incoming,
                            soleEntry && n.kind.StartKind? && outgoing == 0,
                            soleEntry && n.kind.JoinKind? && EffectiveMode(c).FullChain? && joining == 0);
  }

  method ReportLogical(i: nat, joinWithoutBranches: bool, startWithoutNext: bool, joinWithoutNext: bool)
    returns (errors: set<Problem>)
    ensures forall p :: p in errors <==> LogicalFlag(p, i, joinWithoutBranches, startWithoutNext, joinWithoutNext)
  {
    errors := When(joinWithoutBranches, JoinWithoutBranches(i)) + When(startWithoutNext, StartWithoutNext(i))
    + When(joinWithoutNext, JoinWithoutNext(i));
  }

  /** Structural errors of logical blocks: joins without branches, and, once the entry
      is unambiguous, blocks that neutral edges do not connect. */
  method CheckLogical(c: Chain, incoming: map<Key, nat>, soleEntry: bool) returns (errors: set<Problem>)
    requires forall k :: k in incoming <==> HasBranch(c, k)
    requires soleEntry == SoleEntry(c)
    ensures forall p :: p in errors <==> SomeLogical(c, p)
  {
    errors := {};
    for i := 0 to |c.nodes|
      invariant forall p :: p in errors <==> exists j :: 0 <= j < i && LogicalProblem(c, j, p)
    {
      var found := CheckLogicalNode(c, i, incoming, soleEntry);
      errors := errors + found;
    }
  }

  lemma KnownArcsAgree(c: Chain, adj: map<Key, seq<Key>>)
    requires AdjArcs(adj) == AllArcs(c.edges)
    ensures CycleSearch.KnownArcs(KnownNodes(c).Keys, adj) == KnownArcsOf(c)
  {
    forall a, b
      ensures (a, b) in CycleSearch.KnownArcs(KnownNodes(c).Keys, adj) <==> (a, b) in KnownArcsOf(c)
    {
      AdjArc(adj, a, b);
    }
  }

  /** Blocks no edge path reaches from the entry, and the attempts of those one does. */
  method CheckReach(c: Chain, nodes: map<Key, Node>, start: Key, seen: set<Key>)
    returns (errors: set<Problem>, potential: int)
    requires nodes == KnownNodes(c) && SoleEntry(c) && start == Entry(c) && seen == ReachSet(AllArcs(c.edges), start)
    ensures forall p :: p in errors <==> p.Unreachable? && GlobalProblem(c, p)
    ensures potential == Potential(c, start)
  {
    errors := set k | k in nodes && k !in seen :: Unreachable(k);
    potential := 0;
    var todo := seen;
    while todo != {}
      invariant todo <= seen
      invariant potential + Attempts(nodes, todo) == Attempts(nodes, seen)
    {
      var key :| key in todo;
      AttemptsWithout(nodes, todo, key);
      todo := todo - {key};
      if key in nodes && IsProvider(nodes[key]) {
        potential := potential + nodes[key].retries + 1;
      }
    }
  }

  /** In fallback mode fan-out and joins have no effect: warn about each. */
  method WarnInert(c: Chain, start: Key, fallback: bool) returns (warnings: set<Warning>)
    requires |c.nodes| > 0 && SoleEntry(c) && start == Entry(c) && fallback == EffectiveMode(c).FirstSuccess?
    ensures forall w :: w in warnings <==> (w.StartFansOut? || w.JoinInert?) && MustWarn(c, 0, w)
  {
    warnings := {};
    if !fallback {
      return;
    }
    var fanOut := CountOut(c.edges, start);
    for i := 0 to |c.nodes|
      invariant forall w :: w in warnings <==> (w.StartFansOut? || w.JoinInert?) && w.node < i && MustWarn(c, 0, w)
    {
      if c.nodes[i].key == start && fanOut > 1 {
        warnings := warnings + {StartFansOut(i)};
      }
      if c.nodes[i].kind.JoinKind? {
        warnings := warnings + {JoinInert(i)};
      }
    }
  }

  method CollectWarnings(c: Chain, nodes: map<Key, Node>, start: Key, seen: set<Key>, nextSeen: set<Key>,
          potential: int, maxAttempts: int)
    returns (warnings: set<Warning>)
    requires nodes == KnownNodes(c) && SoleEntry(c) && start == Entry(c)
    requires seen == ReachSet(AllArcs(c.edges), start) && nextSeen == ReachSet(NeutralArcs(c.edges), start)
    requires potential == Potential(c, start) && |c.nodes| > 0
    ensures forall w :: w in warnings <==> !w.StaleProvider? && MustWarn(c, maxAttempts, w)
  {
    warnings := WarnInert(c, start, EffectiveMode(c).FirstSuccess?);
    if maxAttempts > 0 && potential > maxAttempts {
      warnings := warnings + {MayNotFinish(potential)};
    }
    if EffectiveMode(c).FullChain? {
      warnings := warnings + set k | k in nodes && k in seen && k !in nextSeen :: NotViaNext(k);
    }
  }

  method CheckCycle(c: Chain, nodes: map<Key, Node>, adj: map<Key, seq<Key>>) returns (found: bool)
    requires nodes == KnownNodes(c) && AdjArcs(adj) == AllArcs(c.edges)
    ensures found <==> !Acyclic(KnownArcsOf(c))
  {
    var cycle := CycleSearch.FindCycle(nodes.Keys, adj);
    KnownArcsAgree(c, adj);
    found := cycle != [];
  }

  method CheckShape(badMode: bool, noProvider: bool, noStart: bool, manyStarts: bool, cyclic: bool)
    returns (errors: set<Problem>)
    ensures forall p :: p in errors <==> ShapeFlag(p, badMode, noProvider, noStart, manyStarts, cyclic)
  {
    errors := When(badMode, BadChainMode) + When(noProvider, NoProviderBlock)
    + When(noStart, NoStart) + When(manyStarts, ManyStarts) + When(cyclic, HasCycle);
  }

  /** What reachability shows when the entry is unambiguous; nothing otherwise. */
  method CheckEntry(c: Chain, nodes: map<Key, Node>, entry: set<Key>, all: map<Key, seq<Key>>, maxAttempts: int)
    returns (errors: set<Problem>, warnings: set<Warning>)
    requires |c.nodes| > 0 && nodes == KnownNodes(c) && entry == EntryKeys(c) && AdjArcs(all) == AllArcs(c.edges)
    ensures forall p :: p in errors <==> p.Unreachable? && GlobalProblem(c, p)
    ensures forall w :: w in warnings <==> !w.StaleProvider? && MustWarn(c, maxAttempts, w)
  {
    if |entry| != 1 {
      return {}, {};
    }
    var start :| start in entry;
    assert start == Entry(c);
    var seen := Search(all, start);
    var next := Adjacency(c.edges, true);
    var nextSeen := Search(next, start);
    var potential;
    errors, potential := CheckReach(c, nodes, start, seen);
    warnings := CollectWarnings(c, nodes, start, seen, nextSeen, potential, maxAttempts);
  }

  /** The errors reported are exactly those the graph calls for, and so are the warnings. */
  method ValidateChain(c: Chain, maxAttempts: int) returns (res: Validation)
    ensures forall p :: p in res.errors <==> MustReport(c, p)
    ensures forall w :: w in res.warnings <==> MustWarn(c, maxAttempts, w)
    ensures res.ok <==> res.errors == {}
    ensures res.ok <==> Accepts(c)
  {
    if |c.nodes| == 0 {
      assert MustReport(c, NoNodes);
      return Validation(false, {NoNodes}, {});
    }
    var nodes, providers, nodeErrors, stale := CheckNodes(c);
    var incoming, edgeErrors := CheckEdges(c, nodes);
    var entry := CollectEntries(c);
    var logicalErrors := CheckLogical(c, incoming, |entry| == 1);
    var all := Adjacency(c.edges, false);
    var cyclic := CheckCycle(c, nodes, all);
    var shapeErrors := CheckShape(c.mode.OtherChainMode?, providers == 0, |entry| == 0, |entry| > 1, cyclic);
    var reachErrors, warnings := CheckEntry(c, nodes, entry, all, maxAttempts);
    assert forall p :: p in shapeErrors || p in reachErrors <==> GlobalProblem(c, p);
    var errors := nodeErrors + edgeErrors + logicalErrors + (shapeErrors + reachErrors);
    res := Validation(errors == {}, errors, stale + warnings);
    assert forall w :: w in stale <==> w.StaleProvider? && MustWarn(c, maxAttempts, w);
  }

  // --- What acceptance gives the executors ------------------------------------

  ghost predicate WellFormed(c: Chain) {
    && |c.nodes| > 0
    && DistinctKeys(c.nodes)
    && (forall n :: n in c.nodes ==> 0 <= n.retries <= 10)
    && (forall e :: e in c.edges ==> HasKey(c, e.source) && HasKey(c, e.target))
    && Acyclic(AllArcs(c.edges))
    && SoleEntry(c)
    && (forall n :: n in c.nodes ==> Reaches(AllArcs(c.edges), Entry(c), n.key))
    && (forall n :: n in c.nodes && n.kind.StartKind? ==> NeutralOut(c.edges, n.key) != {})
  }

  lemma KnownIsHeld(c: Chain)
    requires forall i :: 0 <= i < |c.nodes| ==> !Blank(c.nodes[i].key)
    ensures KnownNodes(c) == NodeMap(c.nodes)
    ensures forall k :: k in KnownNodes(c) <==> HasKey(c, k)
  {
    NodeMapSound(c.nodes);
    forall k | k in NodeMap(c.nodes)
      ensures !Blank(k)
    {
      var i :| 0 <= i < |c.nodes| && c.nodes[i].key == k;
    }
  }

  lemma AcceptedNodes(c: Chain)
    requires Accepts(c)
    ensures |c.nodes| > 0 && DistinctKeys(c.nodes)
    ensures forall i :: 0 <= i < |c.nodes| ==> !Blank(c.nodes[i].key) && 0 <= c.nodes[i].retries <= 10
  {
    assert !MustReport(c, NoNodes);
    forall i | 0 <= i < |c.nodes|
      ensures !Blank(c.nodes[i].key) && 0 <= c.nodes[i].retries <= 10
      ensures forall h :: 0 <= h < i ==> c.nodes[h].key != c.nodes[i].key
    {
      assert !MustReport(c, BlankKey(i)) && !MustReport(c, DuplicateKey(i));
      assert !MustReport(c, NegativeRetries(i)) && !MustReport(c, TooManyRetries(i));
      assert !NodeProblem(c, i, BlankKey(i)) && !NodeProblem(c, i, DuplicateKey(i));
      assert !NodeProblem(c, i, NegativeRetries(i)) && !NodeProblem(c, i, TooManyRetries(i));
    }
  }

  lemma AcceptedEdges(c: Chain)
    requires Accepts(c)
    ensures forall i :: 0 <= i < |c.edges| ==> HasKey(c, c.edges[i].source) && HasKey(c, c.edges[i].target)
    ensures KnownArcsOf(c) == AllArcs(c.edges)
  {
    AcceptedNodes(c);
    KnownIsHeld(c);
    forall i | 0 <= i < |c.edges|
      ensures c.edges[i].source in KnownNodes(c) && c.edges[i].target in KnownNodes(c)
    {
      assert !MustReport(c, UnknownSource(i)) && !MustReport(c, UnknownTarget(i));
      assert !EdgeProblem(c, i, UnknownSource(i)) && !EdgeProblem(c, i, UnknownTarget(i));
    }
  }

  lemma AcceptedGraph(c: Chain)
    requires Accepts(c)
    ensures SoleEntry(c) && Acyclic(AllArcs(c.edges))
  {
    AcceptedNodes(c);
    AcceptedEdges(c);
    assert !MustReport(c, NoStart) && !MustReport(c, ManyStarts) && !MustReport(c, HasCycle);
  }

  lemma AcceptedNode(c: Chain, i: nat)
    requires Accepts(c) && SoleEntry(c) && i < |c.nodes|
    ensures Reaches(AllArcs(c.edges), Entry(c), c.nodes[i].key)
    ensures c.nodes[i].kind.StartKind? ==> NeutralOut(c.edges, c.nodes[i].key) != {}
  {
    AcceptedNodes(c);
    KnownIsHeld(c);
    assert HasKey(c, c.nodes[i].key);
    assert !MustReport(c, Unreachable(c.nodes[i].key)) && !MustReport(c, StartWithoutNext(i));
    assert !LogicalProblem(c, i, StartWithoutNext(i));
  }

  lemma AcceptedIsWellFormed(c: Chain)
    requires Accepts(c)
    ensures WellFormed(c)
  {
    AcceptedNodes(c);
    AcceptedEdges(c);
    AcceptedGraph(c);
    forall i | 0 <= i < |c.nodes|
      ensures Reaches(AllArcs(c.edges), Entry(c), c.nodes[i].key)
      ensures c.nodes[i].kind.StartKind? ==> NeutralOut(c.edges, c.nodes[i].key) != {}
    {
      AcceptedNode(c, i);
    }
  }
}
