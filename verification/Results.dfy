/** What a request returns, in terms of the rows its blocks sent: one deduplicated digest
    of the rows that count, in the order in which they are merged. */
module Results {
  import opened Text
  import opened Graph
  import opened Chains
  import opened Merge
  import opened Cooldown
  import opened Walks
  import FS = FirstSuccess
  import FullChain

  // --- Full chain ---------------------------------------------------------------------------

  function BlockFeed(env: Env, n: Node, b: FullChain.Block): seq<Feed> {
    if b.status == OkStatus then Tagged(env.display(n.providerId), b.rows) else []
  }

  /** The rows of the successful reachable provider blocks, in plan order. */
  function OrderFeed(j: FullChain.Job, reach: set<Key>, blocks: map<Key, FullChain.Block>, order: seq<Key>): seq<Feed> {
    if order == [] then []
    else
      var k := order[|order| - 1];
      OrderFeed(j, reach, blocks, order[..|order| - 1]) +
      if FullChain.Merges(j.plan, reach, k) then BlockFeed(j.env, j.plan.nodes[k], FullChain.BlockAt(blocks, k)) else []
  }

  lemma {:induction false} FoldIsFeed(j: FullChain.Job, reach: set<Key>, blocks: map<Key, FullChain.Block>,
          order: seq<Key>)
    ensures FullChain.FoldOrder(j, reach, blocks, order).merged ==
      MergeAll(j.env.norm, OrderFeed(j, reach, blocks, order))
  {
    if order != [] {
      var front, k := order[..|order| - 1], order[|order| - 1];
      var feed := OrderFeed(j, reach, blocks, front);
      FoldIsFeed(j, reach, blocks, front);
      assert feed + [] == feed;
      if FullChain.Merges(j.plan, reach, k) {
        var b := FullChain.BlockAt(blocks, k);
        AddRowsIsFeed(j.env.norm, feed, j.env.display(j.plan.nodes[k].providerId), b.rows);
        if b.rows == [] {
          assert Tagged(j.env.display(j.plan.nodes[k].providerId), b.rows) == [];
        }
      }
    }
  }

  /** The rows of a full-chain run are the digest of what its successful blocks sent, cut
      to the count; the statistics count every row sent, the rows returned, and every row
      dropped as a duplicate, the cut aside. */
  lemma FullChainReturnsDigest(j: FullChain.Job, reach: set<Key>, at: FullChain.Progress)
    ensures var feed := OrderFeed(j, reach, at.blocks, j.plan.order);
            var m := MergeAll(j.env.norm, feed);
            var out := FullChain.Assemble(j, reach, at);
            && out.rows == RowsUpTo(m, j.count) && out.used == Names(m.rows)
            && out.stats == Some(Stats(|feed|, |out.rows|, |feed| - |Firsts(j.env.norm, feed)|))
  {
    var feed := OrderFeed(j, reach, at.blocks, j.plan.order);
    FoldIsFeed(j, reach, at.blocks, j.plan.order);
    DigestSize(j.env.norm, feed);
    ClosedRows(j, at.w.(answer := FullChain.LastAnswer(j, reach, at.blocks, j.plan.order, at.w.answer)),
               FullChain.FoldOrder(j, reach, at.blocks, j.plan.order));
  }

  lemma DigestSize(norm: KeyOf, feed: seq<Feed>)
    ensures MergeAll(norm, feed).collected == |feed| && |MergeAll(norm, feed).rows| == |Firsts(norm, feed)|
  {
    MergeIsDigest(norm, feed);
  }

  lemma ClosedRows(j: FullChain.Job, w: Walk, t: FullChain.Tally)
    ensures var out := FullChain.Close(j, w, t);
            && out.rows == RowsUpTo(t.merged, j.count) && out.used == Names(t.merged.rows)
            && out.stats == Some(Stats(t.merged.collected, |out.rows|, t.merged.collected - |t.merged.rows|))
  {
  }

  // --- First success ----------------------------------------------------------------------------

  /** The state stands at a provider block that is not skipped. */
  predicate Calls(j: FS.Job, st: FS.State) {
    && st.out.None? && st.node.Some? && st.node.value in j.plan.nodes && st.w.steps < j.max
    && IsProvider(j.plan.nodes[st.node.value]) && !Resolve(j.env, j.plan.nodes[st.node.value], st.w).0
  }

  function RunAt(j: FS.Job, st: FS.State): NodeRun
    requires Calls(j, st)
  {
    var n := j.plan.nodes[st.node.value];
    Exec(j.env, j.max, n, st.idx, Resolve(j.env, n, st.w).1).0
  }

  predicate WonAt(j: FS.Job, st: FS.State) {
    Calls(j, st) && RunAt(j, st).won
  }

  function Winner(j: FS.Job, st: FS.State): string
    requires Calls(j, st)
  {
    j.env.display(j.plan.nodes[st.node.value].providerId)
  }

  /** The rows of the blocks that won in the first n iterations. */
  function WinnersFeed(j: FS.Job, st: FS.State, n: nat): seq<Feed> {
    if n == 0 then []
    else
      var before := FS.Iterate(j, st, n - 1);
      WinnersFeed(j, st, n - 1) + if WonAt(j, before) then Tagged(Winner(j, before), RunAt(j, before).rows) else []
  }

  /** A step that goes on merges the rows of a win, and nothing otherwise. */
  lemma StepMerges(j: FS.Job, st: FS.State)
    requires FS.Step(j, st).out.None?
    ensures st.out.None?
    ensures FS.Step(j, st).merged ==
            if WonAt(j, st) then AddRows(j.env.norm, st.merged, Winner(j, st), RunAt(j, st).rows) else st.merged
    ensures WonAt(j, st) ==> j.continues
  {
  }

  lemma FeedStep(j: FS.Job, st: FS.State, feed: seq<Feed>)
    requires FS.Step(j, st).out.None? && (st.out.None? ==> st.merged == MergeAll(j.env.norm, feed))
    ensures FS.Step(j, st).merged == MergeAll(j.env.norm, feed + if WonAt(j, st)
      then Tagged(Winner(j, st), RunAt(j, st).rows) else [])
  {
    StepMerges(j, st);
    if WonAt(j, st) {
      AddRowsIsFeed(j.env.norm, feed, Winner(j, st), RunAt(j, st).rows);
    } else {
      assert feed + [] == feed;
    }
  }

  ghost predicate FeedAt(j: FS.Job, st: FS.State, n: nat) {
    FS.Iterate(j, st, n).out.None? ==> FS.Iterate(j, st, n).merged == MergeAll(j.env.norm, WinnersFeed(j, st, n))
  }

  lemma FeedNext(j: FS.Job, st: FS.State, n: nat)
    requires FeedAt(j, st, n)
    ensures FeedAt(j, st, n + 1)
  {
    if FS.Iterate(j, st, n + 1).out.None? {
      FS.NextIterate(j, st, n);
      FeedStep(j, FS.Iterate(j, st, n), WinnersFeed(j, st, n));
    }
  }

  lemma FeedBegins(j: FS.Job, st: FS.State)
    requires st.merged == NOTHING
    ensures FeedAt(j, st, 0)
  {
  }

  lemma {:induction false} CollectedIsFeed(j: FS.Job, st: FS.State, n: nat)
    requires st.merged == NOTHING
    ensures FeedAt(j, st, n)
  {
    FeedBegins(j, st);
    for i := 0 to n
      invariant FeedAt(j, st, i)
    {
      FeedNext(j, st, i);
    }
  }

  lemma GoingOnLost(j: FS.Job, st: FS.State)
    requires !j.continues && FS.Step(j, st).out.None?
    ensures !WonAt(j, st)
  {
    StepMerges(j, st);
  }

  lemma LostBefore(j: FS.Job, st: FS.State, n: nat, i: nat)
    requires !j.continues && FS.Iterate(j, st, n).out.None? && i < n
    ensures !WonAt(j, FS.Iterate(j, st, i))
  {
    if FS.Iterate(j, st, i + 1).out.Some? {
      FS.EndIsFinal(j, st, i + 1, n);
    }
    FS.NextIterate(j, st, i);
    GoingOnLost(j, FS.Iterate(j, st, i));
  }

  lemma {:induction false} NoWinnersFeed(j: FS.Job, st: FS.State, n: nat)
    requires forall i :: 0 <= i < n ==> !WonAt(j, FS.Iterate(j, st, i))
    ensures WinnersFeed(j, st, n) == []
  {
    if n > 0 {
      NoWinnersFeed(j, st, n - 1);
    }
  }

  /** The output of the iteration that ends the walk. */
  lemma EndingStep(j: FS.Job, st: FS.State)
    requires st.out.None? && FS.Step(j, st).out.Some?
    ensures var out := FS.Step(j, st).out.value;
            if WonAt(j, st) then
              var m := AddRows(j.env.norm, st.merged, Winner(j, st), RunAt(j, st).rows);
              && out.status == OkStatus && out.error == ""
              && (if |st.merged.rows| > 0 then out.rows == RowsUpTo(m, j.count) && out.used == Names(m.rows)
                  else out.rows == Capped(RunAt(j, st).rows, j.count) && out.used == Winner(j, st))
            else
              out.rows == RowsUpTo(st.merged, j.count) && out.used == Names(st.merged.rows)
  {
    assert Names([]) == "";
    if WonAt(j, st) && |st.merged.rows| > 0 {
      var m := AddRows(j.env.norm, st.merged, Winner(j, st), RunAt(j, st).rows);
      assert Capped(RowsUpTo(m, j.count), j.count) == RowsUpTo(m, j.count);
    }
  }

  /** A fallback run returns the digest of the rows of its winners, except that a single
      winner's rows are returned as they are. */
  lemma FirstSuccessReturnsWinners(j: FS.Job, breaker: Breaker, n: nat)
    requires FS.Iterate(j, FS.Begin(j, breaker), n).out.None? && FS.Iterate(j, FS.Begin(j, breaker), n + 1).out.Some?
    ensures var st0 := FS.Begin(j, breaker);
            var last, out := FS.Iterate(j, st0, n), FS.Iterate(j, st0, n + 1).out.value;
            var m := MergeAll(j.env.norm, WinnersFeed(j, st0, n + 1));
            if WonAt(j, last) && WinnersFeed(j, st0, n) == []
              then out.status == OkStatus && out.rows == Capped(RunAt(j, last).rows, j.count) &&
                 out.used == Winner(j, last)
            else out.rows == RowsUpTo(m, j.count) && out.used == Names(m.rows)
  {
    var st0 := FS.Begin(j, breaker);
    var last, feed := FS.Iterate(j, st0, n), WinnersFeed(j, st0, n);
    FS.NextIterate(j, st0, n);
    CollectedIsFeed(j, st0, n);
    EndingStep(j, last);
    Accounting(j.env.norm, feed, j.count);
    assert feed + [] == feed;
    if WonAt(j, last) {
      AddRowsIsFeed(j.env.norm, feed, Winner(j, last), RunAt(j, last).rows);
    }
  }

  /** A legacy chain returns the first winner, and nothing if no block wins. */
  lemma LegacyReturnsFirstWinner(j: FS.Job, breaker: Breaker, n: nat)
    requires !j.continues
    requires FS.Iterate(j, FS.Begin(j, breaker), n).out.None? && FS.Iterate(j, FS.Begin(j, breaker), n + 1).out.Some?
    ensures var st0 := FS.Begin(j, breaker);
            var last, out := FS.Iterate(j, st0, n), FS.Iterate(j, st0, n + 1).out.value;
            && (forall i :: 0 <= i < n ==> !WonAt(j, FS.Iterate(j, st0, i)))
            && if WonAt(j, last) then out.status == OkStatus && out.rows == Capped(RunAt(j, last).rows, j.count) &&
               out.used == Winner(j, last)
               else out.rows == [] && out.used == ""
  {
    CollectedIsFeed(j, FS.Begin(j, breaker), n);
    forall i | 0 <= i < n
      ensures !WonAt(j, FS.Iterate(j, FS.Begin(j, breaker), i))
    {
      LostBefore(j, FS.Begin(j, breaker), n, i);
    }
    NoWinnersFeed(j, FS.Begin(j, breaker), n);
    FS.NextIterate(j, FS.Begin(j, breaker), n);
    EndingStep(j, FS.Iterate(j, FS.Begin(j, breaker), n));
    assert Names([]) == "";
  }
}
