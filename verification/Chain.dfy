/** The stored chain graph. Free-text fields are modelled by what the engine can tell
    apart in them: the normalised word and, where the validator compares the raw text,
    whether the raw text is that word verbatim. */
module Chains {
  import opened Text
  import opened Graph

  datatype Condition =
    | BlankCondition | NextCondition | AnyCondition
    | SuccessCondition | EmptyCondition | FailCondition
    | OtherCondition(text: string)

  datatype KindWord = BlankKind | ProviderKind | StartKind | JoinKind | OtherKind
  datatype ModeWord = BlankMode | SearchMode | AnswerMode | OtherMode
  datatype PolicyWord = BlankPolicy | StopPolicy | NextPolicy | EdgePolicy | OtherPolicy
  datatype Written<W> = Written(word: W, verbatim: bool)

  datatype ChainMode = BlankChainMode | FirstSuccess | FullChain | OtherChainMode
  datatype Outcome = Success | Empty | Fail

  datatype Node = Node(
    key: Key,
    kind: KindWord,
    providerId: string,
    mode: Written<ModeWord>,
    timeoutMs: int,
    retries: int,
    retryDelayMs: int,
    onSuccess: Written<PolicyWord>,
    onEmpty: Written<PolicyWord>,
    onFail: Written<PolicyWord>,
    isStart: bool,
    treatEmpty: Option<bool>,
    sparse: Option<bool>)

  datatype Edge = Edge(source: Key, target: Key, condition: Condition)

  datatype Chain = Chain(mode: ChainMode, nodes: seq<Node>, edges: seq<Edge>)

  /** Kind of a block; an unknown word is coerced to provider. */
  predicate IsProvider(n: Node) {
    !n.kind.StartKind? && !n.kind.JoinKind?
  }

  predicate IsAnswer(n: Node) {
    n.mode.word.AnswerMode?
  }

  predicate Neutral(c: Condition) {
    c.NextCondition? || c.AnyCondition? || c.BlankCondition?
  }

  function ConditionOf(o: Outcome): Condition {
    match o
    case Success => SuccessCondition
    case Empty => EmptyCondition
    case Fail => FailCondition
  }

  function Keys(c: Chain): (ks: seq<Key>)
    ensures |ks| == |c.nodes| && forall i :: 0 <= i < |ks| ==> ks[i] == c.nodes[i].key
  {
    seq(|c.nodes|, i requires 0 <= i < |c.nodes| => c.nodes[i].key)
  }

  predicate HasKey(c: Chain, k: Key) {
    exists i :: 0 <= i < |c.nodes| && c.nodes[i].key == k
  }

  /** Arcs along every edge, and along the neutral edges only. */
  ghost function AllArcs(edges: seq<Edge>): Arcs {
    set i | 0 <= i < |edges| :: (edges[i].source, edges[i].target)
  }

  ghost function NeutralArcs(edges: seq<Edge>): Arcs {
    set i | 0 <= i < |edges| && Neutral(edges[i].condition) :: (edges[i].source, edges[i].target)
  }

  lemma NeutralWithinAll(edges: seq<Edge>)
    ensures NeutralArcs(edges) <= AllArcs(edges)
  {
  }

  /** Reachability and acyclicity carry over to a smaller set of arcs. */
  lemma SubgraphReach(g: Arcs, h: Arcs, a: Key)
    requires g <= h
    ensures ReachSet(g, a) <= ReachSet(h, a)
    ensures Acyclic(h) ==> Acyclic(g)
  {
    forall p: seq<Key> | IsPath(g, p)
      ensures IsPath(h, p)
    {
    }
    forall b | b in ReachSet(g, a)
      ensures Reaches(h, a, b)
    {
      var p :| PathFromTo(g, p, a, b);
      assert PathFromTo(h, p, a, b);
    }
    if Acyclic(h) {
      forall p: seq<Key> | IsPath(g, p)
        ensures !ClosedWalk(g, p)
      {
        assert IsPath(h, p) && !ClosedWalk(h, p);
      }
    }
  }

  /** Adjacency built the way the engine builds it, one edge at a time. */
  method Adjacency(edges: seq<Edge>, neutralOnly: bool) returns (adj: map<Key, seq<Key>>)
    ensures AdjArcs(adj) == if neutralOnly then NeutralArcs(edges) else AllArcs(edges)
    ensures adj == AdjacencyOf(edges, neutralOnly)
  {
    adj := map[];
    for i := 0 to |edges|
      invariant adj == AdjacencyOf(edges[..i], neutralOnly)
    {
      assert edges[..i + 1][..i] == edges[..i];
      var e := edges[i];
      if !neutralOnly || Neutral(e.condition) {
        adj := adj[e.source := (if e.source in adj then adj[e.source] else []) + [e.target]];
      }
    }
    assert edges[..|edges|] == edges;
    AdjacencyArcs(edges, neutralOnly);
  }

  function AdjacencyOf(edges: seq<Edge>, neutralOnly: bool): map<Key, seq<Key>> {
    if edges == [] then map[]
    else
      var e := edges[|edges| - 1];
      var adj := AdjacencyOf(edges[..|edges| - 1], neutralOnly);
      if !neutralOnly || Neutral(e.condition) then
        adj[e.source := (if e.source in adj then adj[e.source] else []) + [e.target]]
      else adj
  }

  lemma {:induction false} AdjacencyArcs(edges: seq<Edge>, neutralOnly: bool)
    ensures AdjArcs(AdjacencyOf(edges, neutralOnly)) == if neutralOnly then NeutralArcs(edges) else AllArcs(edges)
  {
    if edges != [] {
      var e := edges[|edges| - 1];
      var front := edges[..|edges| - 1];
      AdjacencyArcs(front, neutralOnly);
      var adj := AdjacencyOf(front, neutralOnly);
      var all := AdjacencyOf(edges, neutralOnly);
      assert edges == front + [e];
      forall a, b
        ensures (a, b) in AdjArcs(all) <==>
                (a, b) in AdjArcs(adj) || ((!neutralOnly || Neutral(e.condition)) && a == e.source && b == e.target)
      {
        AdjArc(adj, a, b);
        AdjArc(all, a, b);
      }
      assert AllArcs(edges) == AllArcs(front) + {(e.source, e.target)} by {
        assert edges[|edges| - 1] == e;
        forall i | 0 <= i < |front|
          ensures edges[i] == front[i]
        {
        }
      }
      assert NeutralArcs(edges) == NeutralArcs(front) + if Neutral(e.condition) then {(e.source, e.target)} else {} by {
        assert edges[|edges| - 1] == e;
        forall i | 0 <= i < |front|
          ensures edges[i] == front[i]
        {
        }
      }
    }
  }

  // --- Nodes by key ----------------------------------------------------------

  /** The index the engine builds: a later node replaces an earlier one with its key. */
  function NodeMap(nodes: seq<Node>): map<Key, Node> {
    if nodes == [] then map[]
    else NodeMap(nodes[..|nodes| - 1])[nodes[|nodes| - 1].key := nodes[|nodes| - 1]]
  }

  lemma {:induction false} NodeMapSound(nodes: seq<Node>)
    ensures forall k :: k in NodeMap(nodes) <==> exists i :: 0 <= i < |nodes| && nodes[i].key == k
    ensures forall k :: k in NodeMap(nodes) ==> NodeMap(nodes)[k] in nodes && NodeMap(nodes)[k].key == k
  {
    if nodes != [] {
      var front := nodes[..|nodes| - 1];
      NodeMapSound(front);
      forall i | 0 <= i < |nodes|
        ensures nodes[i].key in NodeMap(nodes)
      {
        if i < |front| {
          assert front[i] == nodes[i];
        }
      }
      forall k | k in NodeMap(front)
        ensures exists i :: 0 <= i < |nodes| && nodes[i].key == k
      {
        var i :| 0 <= i < |front| && front[i].key == k;
        assert nodes[i].key == k;
      }
    }
  }

  ghost predicate DistinctKeys(nodes: seq<Node>) {
    forall i, j :: 0 <= i < j < |nodes| ==> nodes[i].key != nodes[j].key
  }

  lemma {:induction false} NodeMapDistinct(nodes: seq<Node>, i: nat)
    requires DistinctKeys(nodes) && i < |nodes|
    ensures nodes[i].key in NodeMap(nodes) && NodeMap(nodes)[nodes[i].key] == nodes[i]
  {
    var front := nodes[..|nodes| - 1];
    if i < |front| {
      assert front[i] == nodes[i];
      NodeMapDistinct(front, i);
    }
  }

  // --- Attempts --------------------------------------------------------------

  /** Attempts one block may start: every retry included, none for a logical block. */
  function BlockAttempts(m: map<Key, Node>, k: Key): int {
    if k in m && IsProvider(m[k]) then m[k].retries + 1 else 0
  }

  ghost function Attempts(m: map<Key, Node>, s: set<Key>): int {
    if s == {} then 0
    else
      var k :| k in s;
      BlockAttempts(m, k) + Attempts(m, s - {k})
  }

  /** The sum does not depend on the order in which the set is taken apart. */
  lemma {:induction false} AttemptsWithout(m: map<Key, Node>, s: set<Key>, k: Key)
    requires k in s
    ensures Attempts(m, s) == BlockAttempts(m, k) + Attempts(m, s - {k})
  {
    var x :| x in s && Attempts(m, s) == BlockAttempts(m, x) + Attempts(m, s - {x});
    if x != k {
      AttemptsWithout(m, s - {x}, k);
      AttemptsWithout(m, s - {k}, x);
      assert s - {x} - {k} == s - {k} - {x};
    }
  }

  lemma {:induction false} AttemptsMonotone(m: map<Key, Node>, s: set<Key>, t: set<Key>)
    requires s <= t
    requires forall k :: k in m ==> m[k].retries >= 0
    ensures 0 <= Attempts(m, s) <= Attempts(m, t)
    decreases t
  {
    if t != {} {
      var k :| k in t;
      AttemptsWithout(m, t, k);
      if k in s {
        AttemptsWithout(m, s, k);
      }
      AttemptsMonotone(m, s - {k}, t - {k});
      if k !in s {
        assert s - {k} == s;
      }
    } else {
      assert s == {};
    }
  }
}
