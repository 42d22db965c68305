/** The linear full-chain walker kept for chains without a Start block. */
module Legacy {
  import opened Text
  import opened Graph
  import opened Chains
  import opened Plans
  import opened Merge
  import opened Cooldown
  import opened Walks
  import opened FullChain

  /** How the walker classifies a run: rows first, then a bare answer. */
  function Note(env: Env, n: Node, run: NodeRun, t: Tally): Tally {
    if run.result.ok && |run.rows| > 0
    then Tally(AddRows(env.norm, t.merged, env.display(n.providerId), run.rows), OkStatus, t.lastError)
    else if run.result.ok && HasAnswer(n, run.result) then t.(lastStatus := OkStatus)
    else if run.result.ok then t.(lastStatus := EmptyStatus)
    else t.(lastStatus := FailStatus, lastError := if run.result.error != "" then run.result.error else t.lastError)
  }

  /** One visited block. */
  function Visit(j: Job, n: Node, idx: nat, w: Walk, t: Tally): (Walk, Tally, nat) {
    if !IsProvider(n) then (w, t, idx)
    else
      var (skip, w1) := Resolve(j.env, n, w);
      if skip then (Skipped(n, idx, w1), t.(lastStatus := SkipStatus), idx + 1)
      else
        var (run, w2) := Exec(j.env, j.max, n, idx, w1);
        (w2, Note(j.env, n, run, t), idx + 1)
  }

  function WalkFrom(j: Job, visited: set<Key>, node: Option<Key>, idx: nat, w: Walk, t: Tally): (Walk, Tally)
    decreases j.plan.nodes.Keys - visited
  {
    if node.None? || w.steps >= j.max || node.value in visited || node.value !in j.plan.nodes then (w, t)
    else
      var (w', t', idx') := Visit(j, j.plan.nodes[node.value], idx, w, t);
      WalkFrom(j, visited + {node.value}, NextInFullChain(j.plan, node.value), idx', w', t')
  }

  function LegacyOutput(j: Job, breaker: Breaker): Output {
    var (w, t) := WalkFrom(j, {}, Some(j.plan.start), 0, FreshWalk(breaker), NO_TALLY);
    Close(j, w, t)
  }

  /** The shared state a run leaves: steps, recorded attempts, answer, breaker. */
  function LegacyEnd(j: Job, breaker: Breaker): Walk {
    WalkFrom(j, {}, Some(j.plan.start), 0, FreshWalk(breaker), NO_TALLY).0
  }

  // --- The code's own form ---------------------------------------------------------------

  method VisitBlock(j: Job, run: Run, merger: Merger, n: Node, idx: nat, lastStatus: Status, lastError: string)
    returns (idx': nat, status: Status, error: string)
    requires run.maxAttempts == j.max && merger.norm == j.env.norm && Indexed(merger.View())
    modifies run, run.cooldowns, merger
    ensures Indexed(merger.View())
    ensures (run.View(), Tally(merger.View(), status, error), idx') ==
            Visit(j, n, idx, old(run.View()), Tally(old(merger.View()), lastStatus, lastError))
  {
    if !IsProvider(n) {
      return idx, lastStatus, lastError;
    }
    var skip := run.ResolveNode(j.env, n);
    if skip {
      run.RecordSkip(n, idx);
      return idx + 1, SkipStatus, lastError;
    }
    var ran := run.ExecNode(j.env, idx, n);
    idx', error := idx + 1, lastError;
    if ran.result.ok && |ran.rows| > 0 {
      status := OkStatus;
      var changed := merger.Add(j.env.display(n.providerId), ran.rows);
    } else if ran.result.ok && HasAnswer(n, ran.result) {
      status := OkStatus;
    } else if ran.result.ok {
      status := EmptyStatus;
    } else {
      status := FailStatus;
      if ran.result.error != "" {
        error := ran.result.error;
      }
    }
  }

  method RunFullChainLegacy(j: Job, cooldowns: ProviderCooldowns) returns (out: Output)
    requires j.plan.start in j.plan.nodes
    modifies cooldowns
    ensures out == LegacyOutput(j, old(cooldowns.View()))
  {
    var run := new Run(j.max, cooldowns);
    var merger := new Merger(j.env.norm);
    var visited, node, idx, status, error := {}, Some(j.plan.start), 0, NoStatus, "";
    ghost var goal := WalkFrom(j, {}, Some(j.plan.start), 0, run.View(), NO_TALLY);
    while node.Some? && run.HasBudget()
      invariant fresh(run) && fresh(merger) && run.maxAttempts == j.max && run.cooldowns == cooldowns &&
        merger.norm == j.env.norm
      invariant Indexed(merger.View()) && (node.Some? ==> node.value in j.plan.nodes)
      invariant WalkFrom(j, visited, node, idx, run.View(), Tally(merger.View(), status, error)) == goal
      decreases j.plan.nodes.Keys - visited
    {
      if node.value in visited {
        break;
      }
      visited := visited + {node.value};
      idx, status, error := VisitBlock(j, run, merger, j.plan.nodes[node.value], idx, status, error);
      node := NextInFullChain(j.plan, node.value);
    }
    out := Close(j, run.Snapshot(), Tally(merger.Snapshot(), status, error));
  }

  // --- The path it takes -------------------------------------------------------------------

  /** The blocks the walk would visit with an unlimited budget. */
  function PathFrom(p: Plan, visited: set<Key>, node: Option<Key>): seq<Key>
    decreases p.nodes.Keys - visited
  {
    if node.None? || node.value in visited || node.value !in p.nodes then []
    else [node.value] + PathFrom(p, visited + {node.value}, NextInFullChain(p, node.value))
  }

  function LegacyPath(p: Plan): seq<Key> {
    PathFrom(p, {}, Some(p.start))
  }

  lemma {:induction false} PathFromShape(p: Plan, visited: set<Key>, node: Option<Key>)
    requires PlanShape(p)
    ensures var path := PathFrom(p, visited, node);
            && Distinct(path) && (forall k :: k in path ==> k !in visited && k in p.nodes)
            && (path != [] ==> node == Some(path[0]) && IsPath(NeutralArcs(p.edges), path))
            && (forall i :: 0 <= i < |path| - 1 ==> NextInFullChain(p, path[i]) == Some(path[i + 1]))
            && (path != [] ==> var next := NextInFullChain(p, path[|path| - 1]);
                               next.None? || next.value in visited || next.value in path)
    decreases p.nodes.Keys - visited
  {
    if node.Some? && node.value !in visited && node.value in p.nodes {
      var k := node.value;
      var rest := PathFrom(p, visited + {k}, NextInFullChain(p, k));
      PathFromShape(p, visited + {k}, NextInFullChain(p, k));
      var path := [k] + rest;
      assert path == PathFrom(p, visited, node);
      if rest != [] {
        FullChainStepFollowsEdge(p, k);
        forall i | 0 <= i < |path| - 1
          ensures (path[i], path[i + 1]) in NeutralArcs(p.edges)
          ensures NextInFullChain(p, path[i]) == Some(path[i + 1])
        {
          if i > 0 {
            assert path[i] == rest[i - 1] && path[i + 1] == rest[i];
          }
        }
        assert path[|path| - 1] == rest[|rest| - 1];
      }
    }
  }

  /** On an acyclic plan the path ends because no neutral edge leads on. */
  lemma LegacyPathShape(p: Plan)
    requires PlanShape(p) && Acyclic(NeutralArcs(p.edges))
    ensures var path := LegacyPath(p);
            && path != [] && path[0] == p.start && Distinct(path) && IsPath(NeutralArcs(p.edges), path)
            && (forall k :: k in path ==> k in p.nodes)
            && (forall i :: 0 <= i < |path| - 1 ==> NextInFullChain(p, path[i]) == Some(path[i + 1]))
            && NextInFullChain(p, path[|path| - 1]) == None
  {
    var path := LegacyPath(p);
    PathFromShape(p, {}, Some(p.start));
    var last := path[|path| - 1];
    if NextInFullChain(p, last).Some? {
      var next := NextInFullChain(p, last).value;
      FullChainStepFollowsEdge(p, last);
      AcyclicPathGrows(NeutralArcs(p.edges), path, next);
    }
  }
}
