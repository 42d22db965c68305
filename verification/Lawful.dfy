/** What the validator accepts, said of blocks and edges alone: every clause is a fact the
    editor or the engine relies on, and together they are exactly acceptance. */
module Lawful {
  import opened Text
  import opened Graph
  import opened Chains
  import opened Validate

  predicate InVocabulary(p: Written<PolicyWord>) {
    p.verbatim && p.word in {BlankPolicy, StopPolicy, NextPolicy, EdgePolicy}
  }

  predicate LawfulIdentity(n: Node) {
    && !Blank(n.key)
    && n.kind in {BlankKind, ProviderKind, StartKind, JoinKind}
    && n.mode.verbatim && n.mode.word in {BlankMode, SearchMode, AnswerMode}
    && if n.kind in {StartKind, JoinKind} then n.mode.word != AnswerMode
       else !Blank(n.providerId) && (n.isStart ==> n.mode.word != AnswerMode)
  }

  predicate LawfulLimits(n: Node) {
    && (n.timeoutMs == 0 || 1000 <= n.timeoutMs <= 120000)
    && 0 <= n.retries <= 10
    && 0 <= n.retryDelayMs
    && InVocabulary(n.onSuccess) && InVocabulary(n.onEmpty) && InVocabulary(n.onFail)
  }

  predicate Leaves(e: Edge, k: Key) {
    e.source == k && e.condition in {BlankCondition, NextCondition, AnyCondition}
  }

  predicate Enters(e: Edge, k: Key) {
    e.target == k && e.condition in {BlankCondition, NextCondition, AnyCondition}
  }

  /** A Start block has a neutral way out; a Join collects a branch, in full-chain mode one
      along a neutral edge. */
  predicate LawfulLogical(c: Chain, n: Node) {
    && (n.kind == StartKind ==> exists e :: e in c.edges && Leaves(e, n.key))
    && (n.kind == JoinKind ==> exists e :: e in c.edges && e.target == n.key)
    && (n.kind == JoinKind && c.mode == FullChain ==> exists e :: e in c.edges && Enters(e, n.key))
  }

  predicate LawfulEdge(c: Chain, e: Edge) {
    && (exists n :: n in c.nodes && n.key == e.source)
    && (exists n :: n in c.nodes && n.key == e.target)
    && e.condition in {BlankCondition, NextCondition, AnyCondition, SuccessCondition, EmptyCondition, FailCondition}
  }

  predicate IsEntry(n: Node) {
    n.isStart || n.kind == StartKind
  }

  /** Block s is where requests enter, and the only such block. */
  predicate OnlyEntry(c: Chain, s: Node) {
    s in c.nodes && forall n :: n in c.nodes ==> (IsEntry(n) <==> n == s)
  }

  ghost predicate ReachesEvery(c: Chain, s: Node) {
    forall n :: n in c.nodes ==> Reaches(AllArcs(c.edges), s.key, n.key)
  }

  ghost predicate Lawful(c: Chain) {
    && c.mode in {BlankChainMode, FirstSuccess, FullChain}
    && DistinctKeys(c.nodes)
    && (exists n :: n in c.nodes && n.kind in {BlankKind, ProviderKind})
    && (forall n :: n in c.nodes ==> LawfulIdentity(n) && LawfulLimits(n) && LawfulLogical(c, n))
    && (forall e :: e in c.edges ==> LawfulEdge(c, e))
    && Acyclic(AllArcs(c.edges))
    && exists s :: OnlyEntry(c, s) && ReachesEvery(c, s)
  }

  // --- Acceptance gives every clause -------------------------------------------------------

  lemma AcceptedIdentity(c: Chain, i: nat)
    requires Accepts(c) && i < |c.nodes|
    ensures LawfulIdentity(c.nodes[i])
  {
    AcceptedNodes(c);
    var n := c.nodes[i];
    assert !MustReport(c, BadKind(i)) && !MustReport(c, NoProvider(i)) && !MustReport(c, BadMode(i));
    assert !MustReport(c, LogicalAnswer(i)) && !MustReport(c, StartAnswer(i));
    assert !NodeProblem(c, i, BadKind(i)) && !NodeProblem(c, i, NoProvider(i)) && !NodeProblem(c, i, BadMode(i));
    assert !NodeProblem(c, i, LogicalAnswer(i)) && !NodeProblem(c, i, StartAnswer(i));
  }

  lemma LimitsHold(n: Node, i: nat)
    requires forall p :: !LimitProblem(n, i, p)
    ensures LawfulLimits(n)
  {
    assert !LimitProblem(n, i, NegativeTimeout(i)) && !LimitProblem(n, i, TimeoutOutOfRange(i));
    assert !LimitProblem(n, i, NegativeRetries(i)) && !LimitProblem(n, i, TooManyRetries(i));
    assert !LimitProblem(n, i, NegativeDelay(i)) && !LimitProblem(n, i, BadPolicy(i, Success));
    assert !LimitProblem(n, i, BadPolicy(i, Empty)) && !LimitProblem(n, i, BadPolicy(i, Fail));
  }

  lemma AcceptedLimits(c: Chain, i: nat)
    requires Accepts(c) && i < |c.nodes|
    ensures LawfulLimits(c.nodes[i])
  {
    AcceptedNodes(c);
    forall p
      ensures !LimitProblem(c.nodes[i], i, p)
    {
      assert !MustReport(c, p);
      assert !NodeProblem(c, i, p);
    }
    LimitsHold(c.nodes[i], i);
  }

  lemma WayOut(c: Chain, k: Key)
    ensures |NeutralOut(c.edges, k)| > 0 <==> exists e :: e in c.edges && Leaves(e, k)
    ensures |NeutralIn(c.edges, k)| > 0 <==> exists e :: e in c.edges && Enters(e, k)
    ensures HasBranch(c, k) <==> exists e :: e in c.edges && e.target == k
  {
    if |NeutralOut(c.edges, k)| > 0 {
      var i :| i in NeutralOut(c.edges, k);
      assert Leaves(c.edges[i], k);
    }
    if |NeutralIn(c.edges, k)| > 0 {
      var i :| i in NeutralIn(c.edges, k);
      assert Enters(c.edges[i], k);
    }
    forall i | 0 <= i < |c.edges|
      ensures Leaves(c.edges[i], k) <==> i in NeutralOut(c.edges, k)
      ensures Enters(c.edges[i], k) <==> i in NeutralIn(c.edges, k)
    {
    }
  }

  lemma AcceptedLogical(c: Chain, i: nat)
    requires Accepts(c) && i < |c.nodes|
    ensures LawfulLogical(c, c.nodes[i])
  {
    AcceptedGraph(c);
    WayOut(c, c.nodes[i].key);
    assert !MustReport(c, StartWithoutNext(i)) && !MustReport(c, JoinWithoutBranches(i));
    assert !MustReport(c, JoinWithoutNext(i));
    assert !LogicalProblem(c, i, StartWithoutNext(i)) && !LogicalProblem(c, i, JoinWithoutBranches(i));
    assert !LogicalProblem(c, i, JoinWithoutNext(i));
  }

  lemma AcceptedEdge(c: Chain, i: nat)
    requires Accepts(c) && i < |c.edges|
    ensures LawfulEdge(c, c.edges[i])
  {
    AcceptedNodes(c);
    AcceptedEdges(c);
    var e := c.edges[i];
    var a :| 0 <= a < |c.nodes| && c.nodes[a].key == e.source;
    var b :| 0 <= b < |c.nodes| && c.nodes[b].key == e.target;
    assert c.nodes[a] in c.nodes && c.nodes[b] in c.nodes;
    assert !MustReport(c, BadCondition(i));
    assert !EdgeProblem(c, i, BadCondition(i));
  }

  lemma EntryHolds(c: Chain, n: Node)
    requires n in c.nodes && IsEntry(n)
    ensures n.key in EntryKeys(c)
  {
    var i :| 0 <= i < |c.nodes| && c.nodes[i] == n;
  }

  lemma AcceptedEntry(c: Chain) returns (s: Node)
    requires Accepts(c)
    ensures OnlyEntry(c, s) && ReachesEvery(c, s)
  {
    AcceptedIsWellFormed(c);
    assert Entry(c) in EntryKeys(c);
    var i :| 0 <= i < |c.nodes| && IsEntry(c.nodes[i]) && c.nodes[i].key == Entry(c);
    s := c.nodes[i];
    forall n | n in c.nodes && IsEntry(n)
      ensures n == s
    {
      EntryHolds(c, n);
      var j :| 0 <= j < |c.nodes| && c.nodes[j] == n;
      assert c.nodes[j].key == c.nodes[i].key;
    }
  }

  lemma AcceptedShape(c: Chain)
    requires Accepts(c)
    ensures c.mode in {BlankChainMode, FirstSuccess, FullChain}
    ensures exists n :: n in c.nodes && n.kind in {BlankKind, ProviderKind}
  {
    AcceptedNodes(c);
    assert !MustReport(c, BadChainMode) && !MustReport(c, NoProviderBlock);
    var i :| 0 <= i < |c.nodes| && !Blank(c.nodes[i].key) && IsProvider(c.nodes[i]);
    AcceptedIdentity(c, i);
    assert c.nodes[i] in c.nodes;
  }

  lemma AcceptedIsLawful(c: Chain)
    requires Accepts(c)
    ensures Lawful(c)
  {
    AcceptedNodes(c);
    AcceptedGraph(c);
    AcceptedShape(c);
    forall n | n in c.nodes
      ensures LawfulIdentity(n) && LawfulLimits(n) && LawfulLogical(c, n)
    {
      var i :| 0 <= i < |c.nodes| && c.nodes[i] == n;
      AcceptedIdentity(c, i);
      AcceptedLimits(c, i);
      AcceptedLogical(c, i);
    }
    forall e | e in c.edges
      ensures LawfulEdge(c, e)
    {
      var i :| 0 <= i < |c.edges| && c.edges[i] == e;
      AcceptedEdge(c, i);
    }
    var s := AcceptedEntry(c);
  }

  // --- The clauses give acceptance -----------------------------------------------------------

  lemma NoLimitProblem(n: Node, i: nat, p: Problem)
    requires LawfulLimits(n)
    ensures !LimitProblem(n, i, p)
  {
  }

  lemma NoIdentityProblem(c: Chain, i: nat, p: Problem)
    requires i < |c.nodes| && LawfulIdentity(c.nodes[i]) && DistinctKeys(c.nodes)
    ensures !IdentityProblem(c, i, p)
  {
    assert forall h :: 0 <= h < i ==> c.nodes[h].key != c.nodes[i].key;
  }

  lemma NoNodeProblem(c: Chain, i: nat, p: Problem)
    requires i < |c.nodes| && LawfulIdentity(c.nodes[i]) && LawfulLimits(c.nodes[i]) && DistinctKeys(c.nodes)
    ensures !NodeProblem(c, i, p)
  {
    NoIdentityProblem(c, i, p);
    NoLimitProblem(c.nodes[i], i, p);
  }

  lemma LawfulKeys(c: Chain)
    requires Lawful(c)
    ensures KnownNodes(c) == NodeMap(c.nodes) && forall k :: k in KnownNodes(c) <==> HasKey(c, k)
    ensures forall e :: e in c.edges ==> e.source in KnownNodes(c) && e.target in KnownNodes(c)
  {
    forall i | 0 <= i < |c.nodes|
      ensures !Blank(c.nodes[i].key)
    {
      assert LawfulIdentity(c.nodes[i]);
    }
    KnownIsHeld(c);
    forall e | e in c.edges
      ensures HasKey(c, e.source) && HasKey(c, e.target)
    {
      assert LawfulEdge(c, e);
      var a :| a in c.nodes && a.key == e.source;
      var b :| b in c.nodes && b.key == e.target;
    }
  }

  lemma NoEdgeProblem(c: Chain, i: nat, p: Problem)
    requires Lawful(c) && i < |c.edges|
    ensures !EdgeProblem(c, i, p)
  {
    LawfulKeys(c);
    assert c.edges[i] in c.edges;
    assert LawfulEdge(c, c.edges[i]);
  }

  lemma NoLogicalProblem(c: Chain, i: nat, p: Problem)
    requires Lawful(c) && i < |c.nodes|
    ensures !LogicalProblem(c, i, p)
  {
    assert c.nodes[i] in c.nodes;
    assert LawfulLogical(c, c.nodes[i]);
    WayOut(c, c.nodes[i].key);
  }

  lemma LawfulEntry(c: Chain, s: Node)
    requires OnlyEntry(c, s)
    ensures EntryKeys(c) == {s.key} && SoleEntry(c) && Entry(c) == s.key
  {
    assert IsEntry(s);
    EntryHolds(c, s);
    forall k | k in EntryKeys(c)
      ensures k == s.key
    {
      var i :| 0 <= i < |c.nodes| && IsEntry(c.nodes[i]) && c.nodes[i].key == k;
      assert c.nodes[i] in c.nodes;
    }
    assert EntryKeys(c) == {s.key};
  }

  lemma LawfulProvider(c: Chain)
    requires Lawful(c)
    ensures HasProvider(c)
  {
    var n :| n in c.nodes && n.kind in {BlankKind, ProviderKind};
    assert LawfulIdentity(n);
    var i :| 0 <= i < |c.nodes| && c.nodes[i] == n;
  }

  lemma NoneUnreached(c: Chain, s: Node, k: Key)
    requires Lawful(c) && OnlyEntry(c, s) && ReachesEvery(c, s) && k in KnownNodes(c)
    ensures SoleEntry(c) && Reaches(AllArcs(c.edges), Entry(c), k)
  {
    LawfulEntry(c, s);
    LawfulKeys(c);
    var i :| 0 <= i < |c.nodes| && c.nodes[i].key == k;
    assert c.nodes[i] in c.nodes;
  }

  lemma NoneCyclic(c: Chain, k: Key)
    requires Acyclic(AllArcs(c.edges))
    ensures Acyclic(KnownArcsOf(c))
  {
    SubgraphReach(KnownArcsOf(c), AllArcs(c.edges), k);
  }

  lemma NoGlobalProblem(c: Chain, p: Problem)
    requires Lawful(c)
    ensures !GlobalProblem(c, p)
  {
    var s :| OnlyEntry(c, s) && ReachesEvery(c, s);
    if p.Unreachable? {
      if p.key in KnownNodes(c) {
        NoneUnreached(c, s, p.key);
      }
    } else {
      LawfulEntry(c, s);
      LawfulProvider(c);
      NoneCyclic(c, s.key);
    }
  }

  /** A chain is accepted exactly when it is lawful: the mode is known; keys differ; some
      block is a provider block; every block has a key, a known kind, mode and policies, a
      provider if it needs one, limits in range, and answers only where a driver can; Start
      and Join blocks are connected by the edges their executor follows; edges join known
      blocks on known conditions; there is no cycle; and one block is the entry and reaches
      all others. */
  lemma AcceptsExactly(c: Chain)
    ensures Accepts(c) <==> Lawful(c)
  {
    if Accepts(c) {
      AcceptedIsLawful(c);
    }
    if Lawful(c) {
      forall p
        ensures !MustReport(c, p)
      {
        forall i: nat | i < |c.nodes|
          ensures !NodeProblem(c, i, p) && !LogicalProblem(c, i, p)
        {
          assert c.nodes[i] in c.nodes;
          NoNodeProblem(c, i, p);
          NoLogicalProblem(c, i, p);
        }
        forall i: nat | i < |c.edges|
          ensures !EdgeProblem(c, i, p)
        {
          NoEdgeProblem(c, i, p);
        }
        NoGlobalProblem(c, p);
      }
    }
  }

  // --- Which error says what ------------------------------------------------------------------------

  lemma OnlyNodeProblem(c: Chain, i: nat, p: Problem)
    requires i < |c.nodes|
    requires match p
             case BlankKey(j) => j == i
             case DuplicateKey(j) => j == i
             case BadKind(j) => j == i
             case NoProvider(j) => j == i
             case NegativeTimeout(j) => j == i
             case TimeoutOutOfRange(j) => j == i
             case NegativeRetries(j) => j == i
             case TooManyRetries(j) => j == i
             case NegativeDelay(j) => j == i
             case _ => false
    ensures MustReport(c, p) <==> NodeProblem(c, i, p)
  {
  }

  /** The errors about block i: a blank key, and then no other; or else a key used before, an
      unknown kind, a missing provider. */
  lemma IdentityErrorsExactly(c: Chain, i: nat)
    requires i < |c.nodes|
    ensures var n := c.nodes[i];
            && (MustReport(c, BlankKey(i)) <==> Blank(n.key))
            && (MustReport(c, DuplicateKey(i)) <==> !Blank(n.key) && exists h :: 0 <= h < i && c.nodes[h].key == n.key)
            && (MustReport(c, BadKind(i)) <==> !Blank(n.key) && n.kind == OtherKind)
            && (MustReport(c, NoProvider(i)) <==>
                !Blank(n.key) && n.kind !in {StartKind, JoinKind} && Blank(n.providerId))
  {
    OnlyNodeProblem(c, i, BlankKey(i));
    OnlyNodeProblem(c, i, DuplicateKey(i));
    OnlyNodeProblem(c, i, BadKind(i));
    OnlyNodeProblem(c, i, NoProvider(i));
  }

  /** The errors about its numbers. */
  lemma LimitErrorsExactly(c: Chain, i: nat)
    requires i < |c.nodes| && !Blank(c.nodes[i].key)
    ensures var n := c.nodes[i];
            && (MustReport(c, NegativeTimeout(i)) <==> n.timeoutMs < 0)
            && (MustReport(c, TimeoutOutOfRange(i)) <==> 0 < n.timeoutMs < 1000 || 120000 < n.timeoutMs)
            && (MustReport(c, NegativeRetries(i)) <==> n.retries < 0)
            && (MustReport(c, TooManyRetries(i)) <==> 10 < n.retries)
            && (MustReport(c, NegativeDelay(i)) <==> n.retryDelayMs < 0)
  {
    OnlyNodeProblem(c, i, NegativeTimeout(i));
    OnlyNodeProblem(c, i, TimeoutOutOfRange(i));
    OnlyNodeProblem(c, i, NegativeRetries(i));
    OnlyNodeProblem(c, i, TooManyRetries(i));
    OnlyNodeProblem(c, i, NegativeDelay(i));
  }

  predicate Usable(c: Chain, k: Key) {
    !Blank(k) && exists n :: n in c.nodes && n.key == k
  }

  lemma KnownIsUsable(c: Chain, k: Key)
    ensures k in KnownNodes(c) <==> Usable(c, k)
  {
    NodeMapSound(c.nodes);
    if i :| 0 <= i < |c.nodes| && c.nodes[i].key == k {
      assert c.nodes[i] in c.nodes;
    }
    if n :| n in c.nodes && n.key == k {
      var i :| 0 <= i < |c.nodes| && c.nodes[i] == n;
    }
  }

  /** The errors about edge i: an end no block with a key of its own has, a condition that is
      not in the vocabulary. */
  lemma EdgeErrorsExactly(c: Chain, i: nat)
    requires i < |c.edges| && c.nodes != []
    ensures var e := c.edges[i];
            && (MustReport(c, UnknownSource(i)) <==> !Usable(c, e.source))
            && (MustReport(c, UnknownTarget(i)) <==> !Usable(c, e.target))
            && (MustReport(c, BadCondition(i)) <==> e.condition.OtherCondition?)
  {
    KnownIsUsable(c, c.edges[i].source);
    KnownIsUsable(c, c.edges[i].target);
    assert MustReport(c, UnknownSource(i)) <==> EdgeProblem(c, i, UnknownSource(i));
    assert MustReport(c, UnknownTarget(i)) <==> EdgeProblem(c, i, UnknownTarget(i));
    assert MustReport(c, BadCondition(i)) <==> EdgeProblem(c, i, BadCondition(i));
  }

  // --- What it only warns about -----------------------------------------------------------------

  /** No block is an entry, or blocks with two keys are. */
  predicate UnclearEntry(c: Chain) {
    (forall n :: n in c.nodes ==> !IsEntry(n)) ||
    (exists a, b :: a in c.nodes && b in c.nodes && IsEntry(a) && IsEntry(b) && a.key != b.key)
  }

  lemma UnclearIsNotSole(c: Chain)
    requires UnclearEntry(c)
    ensures !SoleEntry(c)
  {
    if SoleEntry(c) {
      assert Entry(c) in EntryKeys(c);
      var i :| 0 <= i < |c.nodes| && IsEntry(c.nodes[i]) && c.nodes[i].key == Entry(c);
      assert c.nodes[i] in c.nodes;
      var a, b :| a in c.nodes && b in c.nodes && IsEntry(a) && IsEntry(b) && a.key != b.key;
      EntryHolds(c, a);
      EntryHolds(c, b);
    }
  }

  /** Without exactly one entry key the chain is rejected, and nothing is said of what
      hangs on the entry: neither what it fails to reach nor how it is connected. */
  lemma UnclearEntrySilences(c: Chain, maxAttempts: int, p: Problem, w: Warning)
    requires UnclearEntry(c)
    ensures !Accepts(c)
    ensures MustReport(c, p) ==> !p.Unreachable? && !p.StartWithoutNext? && !p.JoinWithoutNext?
    ensures MustWarn(c, maxAttempts, w) ==> w.StaleProvider?
  {
    UnclearIsNotSole(c);
    if Accepts(c) {
      AcceptedGraph(c);
    }
  }

  predicate Twice(edges: seq<Edge>, k: Key) {
    exists i, j :: 0 <= i < j < |edges| && Leaves(edges[i], k) && Leaves(edges[j], k)
  }

  lemma TwoMembers(s: set<int>, i: int, j: int)
    requires i in s && j in s && i != j
    ensures |s| > 1
  {
    var rest := s - {i};
    assert j in rest && |rest| == |s| - 1;
  }

  lemma Member(s: set<int>) returns (a: int)
    requires |s| > 0
    ensures a in s && |s - {a}| == |s| - 1
  {
    if forall b: int :: b !in s {
      assert false;
    }
    a :| a in s;
  }

  lemma OtherMember(s: set<int>) returns (i: int, j: int)
    requires |s| > 1
    ensures i in s && j in s && i < j
  {
    var a := Member(s);
    var b := Member(s - {a});
    i, j := if a < b then a else b, if a < b then b else a;
  }

  lemma TwoWaysOut(edges: seq<Edge>, k: Key)
    ensures |NeutralOut(edges, k)| > 1 <==> Twice(edges, k)
  {
    var out := NeutralOut(edges, k);
    forall i | 0 <= i < |edges|
      ensures i in out <==> Leaves(edges[i], k)
    {
    }
    if Twice(edges, k) {
      var i, j :| 0 <= i < j < |edges| && Leaves(edges[i], k) && Leaves(edges[j], k);
      TwoMembers(out, i, j);
    }
    if |out| > 1 {
      var i, j := OtherMember(out);
    }
  }

  /** On an accepted chain the remarks about single blocks: a Start or Join block that
      still names a provider; and, where only one block is followed at a time, an entry
      with several neutral ways out and every Join. */
  lemma RemarksExactly(c: Chain, maxAttempts: int, i: nat)
    requires Accepts(c) && i < |c.nodes|
    ensures var n := c.nodes[i];
            && (MustWarn(c, maxAttempts, StaleProvider(i)) <==> n.kind in {StartKind, JoinKind} && !Blank(n.providerId))
            && (MustWarn(c, maxAttempts, StartFansOut(i)) <==>
                c.mode in {BlankChainMode, FirstSuccess} && IsEntry(n) && Twice(c.edges, n.key))
            && (MustWarn(c, maxAttempts, JoinInert(i)) <==>
                c.mode in {BlankChainMode, FirstSuccess} && n.kind == JoinKind)
  {
    AcceptedNodes(c);
    AcceptedGraph(c);
    AcceptedShape(c);
    var s := AcceptedEntry(c);
    LawfulEntry(c, s);
    TwoWaysOut(c.edges, c.nodes[i].key);
    var h :| 0 <= h < |c.nodes| && c.nodes[h] == s;
    assert c.nodes[i] in c.nodes;
    assert c.nodes[i].key == s.key ==> c.nodes[i] == c.nodes[h];
  }
}
