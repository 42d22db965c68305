/** With which status, error, answer and rows a full-chain request ends, read off what the
    drivers of its blocks returned last. */
module Verdicts {
  import opened Text
  import opened Graph
  import opened Chains
  import opened Plans
  import opened Merge
  import opened Cooldown
  import opened Walks
  import opened FullChain
  import opened Branches
  import opened Legacy
  import opened Attempts

  /** A provider block that was processed, and the last result it got; the blank result if
      it was skipped. */
  datatype Report = Report(block: Node, r: Result)

  /** The driver succeeded, with nothing to show. */
  predicate Void(env: Env, h: Report) {
    h.r.ok && !Spoke(h.block, h.r) && Usable(env, h.block, h.r) == []
  }

  /** The rows a report adds; where answers come bare, one that gives an answer adds none. */
  function Sent(env: Env, h: Report, bare: bool): seq<Row> {
    if !h.r.ok || (bare && Spoke(h.block, h.r)) then [] else Usable(env, h.block, h.r)
  }

  function FeedOf(env: Env, heard: seq<Report>, bare: bool): seq<Feed> {
    if heard == [] then []
    else
      var last := heard[|heard| - 1];
      FeedOf(env, heard[..|heard| - 1], bare) + Tagged(env.display(last.block.providerId), Sent(env, last, bare))
  }

  /** The error of the last failure that named one. */
  function LastError(heard: seq<Report>): string {
    if heard == [] then ""
    else
      var r := heard[|heard| - 1].r;
      if !r.ok && r.error != "" then r.error else LastError(heard[..|heard| - 1])
  }

  /** The last answer a successful answer block gave. */
  function LastSaid(heard: seq<Report>, otherwise: string): string {
    if heard == [] then otherwise
    else
      var last := heard[|heard| - 1];
      if Spoke(last.block, last.r) then last.r.answer else LastSaid(heard[..|heard| - 1], otherwise)
  }

  predicate EndsOk(env: Env, heard: seq<Report>, out: Output) {
    out.rows != [] ||
    (heard != [] &&
     var last := heard[|heard| - 1];
     Spoke(last.block, last.r) || (Void(env, last) && !Blank(out.answer)))
  }

  predicate EndsEmpty(env: Env, heard: seq<Report>, out: Output) {
    out.rows == [] && heard != [] && Void(env, heard[|heard| - 1]) && Blank(out.answer)
  }

  /** The request ends well if it returns rows, or its last block answered, or came back
      with nothing while the request holds an answer; empty if that block came back with
      nothing and there are neither rows nor an answer; and otherwise as failed, with the
      last error named. Its rows are the digest of those sent. */
  predicate Judged(env: Env, count: int, heard: seq<Report>, bare: bool, out: Output) {
    var feed := FeedOf(env, heard, bare);
    var m := MergeAll(env.norm, feed);
    && (out.status == OkStatus <==> EndsOk(env, heard, out))
    && (out.status == EmptyStatus <==> EndsEmpty(env, heard, out))
    && out.status in {OkStatus, EmptyStatus, FailStatus}
    && out.error == (if out.status == FailStatus then LastError(heard) else "")
    && out.rows == RowsUpTo(m, count) && out.used == Join(Providers(m.rows), ", ")
    && out.stats == Some(Stats(|feed|, |out.rows|, |feed| - |m.rows|))
  }

  // --- What the tally knows ------------------------------------------------------------------

  predicate StatusReads(env: Env, h: Report, status: Status) {
    if !h.r.ok then status in {FailStatus, SkipStatus}
    else if Void(env, h) then status == EmptyStatus
    else status == OkStatus
  }

  predicate TallyReads(env: Env, heard: seq<Report>, bare: bool, t: Tally) {
    && t.merged == MergeAll(env.norm, FeedOf(env, heard, bare))
    && t.lastError == LastError(heard)
    && (heard == [] ==> t.lastStatus == NoStatus)
    && (heard != [] ==> StatusReads(env, heard[|heard| - 1], t.lastStatus))
  }

  lemma GivenShows(env: Env, heard: seq<Report>, bare: bool)
    requires heard != [] && Sent(env, heard[|heard| - 1], bare) != []
    ensures FeedOf(env, heard, bare) != []
  {
  }

  lemma RowsShow(env: Env, heard: seq<Report>, bare: bool, count: int)
    ensures var rows := RowsUpTo(MergeAll(env.norm, FeedOf(env, heard, bare)), count);
            heard != [] && heard[|heard| - 1].r.ok && rows == [] ==>
              Spoke(heard[|heard| - 1].block, heard[|heard| - 1].r) || Void(env, heard[|heard| - 1])
    ensures MergeAll(env.norm, FeedOf(env, heard, bare)).collected == |FeedOf(env, heard, bare)|
  {
    Accounting(env.norm, FeedOf(env, heard, bare), count);
    if heard != [] && Sent(env, heard[|heard| - 1], bare) != [] {
      GivenShows(env, heard, bare);
    }
  }

  lemma CloseEnds(j: Job, w: Walk, t: Tally)
    ensures var out := Close(j, w, t);
            && out.rows == RowsUpTo(t.merged, j.count) && out.used == Join(Providers(t.merged.rows), ", ")
            && out.stats == Some(Stats(t.merged.collected, |out.rows|, t.merged.collected - |t.merged.rows|))
            && out.answer == w.answer && out.steps == w.steps
            && out.status == (if out.rows != [] || t.lastStatus == OkStatus then OkStatus
                              else if t.lastStatus != EmptyStatus then FailStatus
                              else if Blank(w.answer) then EmptyStatus else OkStatus)
            && out.error == if out.status == FailStatus then t.lastError else ""
  {
  }

  lemma CloseJudges(j: Job, w: Walk, t: Tally, heard: seq<Report>, bare: bool)
    requires TallyReads(j.env, heard, bare, t)
    ensures Judged(j.env, j.count, heard, bare, Close(j, w, t))
    ensures Close(j, w, t).answer == w.answer && Close(j, w, t).steps == w.steps
  {
    RowsShow(j.env, heard, bare, j.count);
    CloseEnds(j, w, t);
  }

  lemma OneMoreReport(env: Env, heard: seq<Report>, bare: bool, t: Tally, h: Report, status: Status)
    requires TallyReads(env, heard, bare, t) && StatusReads(env, h, status)
    ensures TallyReads(env, heard + [h], bare,
                       Tally(AddRows(env.norm, t.merged, env.display(h.block.providerId), Sent(env, h, bare)), status,
                             if !h.r.ok && h.r.error != "" then h.r.error else t.lastError))
  {
    assert (heard + [h])[..|heard|] == heard;
    AddRowsIsFeed(env.norm, FeedOf(env, heard, bare), env.display(h.block.providerId), Sent(env, h, bare));
  }

  // --- Finished blocks --------------------------------------------------------------------------

  ghost predicate FromDriver(env: Env, n: Node, r: Result) {
    r == BLANK || exists a: nat :: a <= n.retries && r == env.call(n.key, a)
  }

  /** What a finished block holds is what its last result calls for. */
  ghost predicate Sound(env: Env, n: Node, b: Block) {
    var h := Report(n, b.result);
    && FromDriver(env, n, b.result) && StatusReads(env, h, b.status)
    && b.rows == Sent(env, h, true)
    && b.answer == (if Spoke(n, b.result) then b.result.answer else "")
    && (b.status == SkipStatus ==> b.result.error == "")
  }

  lemma BlockIsSound(env: Env, n: Node, run: NodeRun)
    requires FromDriver(env, n, run.result) && (run.won <==> Satisfies(env, n, run.result))
    requires run.rows == if run.won then Usable(env, n, run.result) else []
    requires run.attempted || run.result == BLANK
    ensures Sound(env, n, BlockOf(n, run))
  {
  }

  ghost predicate SoundPc(env: Env, n: Node, pc: Pc) {
    match pc
    case Finished(b) => Sound(env, n, b)
    case AtTake(a, last, attempted) =>
      a <= n.retries && FromDriver(env, n, last) && !Satisfies(env, n, last) && (attempted || last == BLANK)
    case AtAnswer(a) => a <= n.retries
    case AtObserve(a) => a <= n.retries
    case AtStages(a) => a <= n.retries
    case AtDecide(a) => a <= n.retries
    case _ => true
  }

  lemma AttemptSound(env: Env, n: Node, a: nat, last: Result, attempted: bool)
    requires FromDriver(env, n, last) && !Satisfies(env, n, last) && (attempted || last == BLANK)
    ensures SoundPc(env, n, Attempt(n, a, last, attempted))
  {
    BlockIsSound(env, n, NodeRun([], false, last, attempted));
  }

  lemma StepSound(env: Env, max: int, n: Node, idx: nat, pc: Pc, w: Walk)
    requires IsProvider(n) && SoundPc(env, n, pc)
    ensures SoundPc(env, n, BranchStep(env, max, n, idx, pc, w).0)
  {
    match pc
    case AtCooldown => AttemptSound(env, n, 0, BLANK, false);
    case AtTake(a, last, attempted) => BlockIsSound(env, n, NodeRun([], false, last, attempted));
    case AtDecide(a) =>
      var r := env.call(n.key, a);
      WinsIfSatisfied(env, n, r);
      if Satisfies(env, n, r) {
        BlockIsSound(env, n, NodeRun(Usable(env, n, r), true, r, true));
      } else if r.permanent {
        BlockIsSound(env, n, NodeRun([], false, r, true));
      } else {
        AttemptSound(env, n, a + 1, r, true);
      }
    case _ =>
  }

  ghost predicate SoundConfig(j: Job, c: Config) {
    forall k :: k in c.pcs && k in j.plan.nodes && IsProvider(j.plan.nodes[k]) ==>
      SoundPc(j.env, j.plan.nodes[k], c.pcs[k])
  }

  lemma {:induction false} InterleaveSound(j: Job, idx: map<Key, nat>, c: Config, sched: seq<Key>)
    requires SoundConfig(j, c)
    ensures SoundConfig(j, Interleave(j, idx, c, sched))
  {
    if sched != [] {
      var front, k := sched[..|sched| - 1], sched[|sched| - 1];
      InterleaveSound(j, idx, c, front);
      var at := Interleave(j, idx, c, front);
      if k in at.pcs && k in j.plan.nodes && IsProvider(j.plan.nodes[k]) {
        StepSound(j.env, j.max, j.plan.nodes[k], if k in idx then idx[k] else 0, at.pcs[k], at.w);
      }
    }
  }

  ghost predicate SoundBlocks(j: Job, blocks: map<Key, Block>) {
    forall k :: k in blocks && k in j.plan.nodes && IsProvider(j.plan.nodes[k]) ==>
      Sound(j.env, j.plan.nodes[k], blocks[k])
  }

  lemma {:induction false} RunSound(j: Job, layers: seq<seq<Key>>, scheds: seq<seq<Key>>, at: Progress)
    requires AllHeld(j.plan, layers) && Finishes(j, layers, scheds, at) && SoundBlocks(j, at.blocks)
    ensures SoundBlocks(j, RunUnder(j, layers, scheds, at).blocks)
    decreases |layers|
  {
    if layers != [] && at.w.steps < j.max {
      InterleaveSound(j, WaveIdx(j.plan, layers[0], at.nextIdx), Launch(layers[0], at.w), scheds[0]);
      RunSound(j, layers[1..], scheds[1..], AfterWave(j, layers[0], scheds[0], at));
    }
  }

  // --- The wave executor ------------------------------------------------------------------------

  predicate Reports(p: Plan, reach: set<Key>, blocks: map<Key, Block>, k: Key) {
    k in reach && k in p.nodes && p.nodes[k].kind !in {StartKind, JoinKind} && k in blocks
  }

  function ReportsAt(p: Plan, reach: set<Key>, blocks: map<Key, Block>, k: Key): seq<Report> {
    if Reports(p, reach, blocks, k) then [Report(p.nodes[k], blocks[k].result)] else []
  }

  /** The processed provider blocks neutral edges reach, in plan order. */
  function ReportsIn(p: Plan, reach: set<Key>, blocks: map<Key, Block>, order: seq<Key>): seq<Report> {
    if order == [] then []
    else
      var k := order[|order| - 1];
      ReportsIn(p, reach, blocks, order[..|order| - 1]) + ReportsAt(p, reach, blocks, k)
  }

  lemma SoundFolds(env: Env, n: Node, b: Block, t: Tally)
    requires Sound(env, n, b)
    ensures FoldBlock(env, n, b, t) ==
            Tally(AddRows(env.norm, t.merged, env.display(n.providerId), Sent(env, Report(n, b.result), true)),
              b.status,
                  if !b.result.ok && b.result.error != "" then b.result.error else t.lastError)
  {
  }

  lemma OneFoldReads(j: Job, reach: set<Key>, blocks: map<Key, Block>, k: Key, heard: seq<Report>, t: Tally)
    requires SoundBlocks(j, blocks) && TallyReads(j.env, heard, true, t)
    ensures TallyReads(j.env, heard + ReportsAt(j.plan, reach, blocks, k), true,
                       if Merges(j.plan, reach, k) then FoldBlock(j.env, j.plan.nodes[k], BlockAt(blocks, k), t) else t)
  {
    if Reports(j.plan, reach, blocks, k) {
      var n, b := j.plan.nodes[k], blocks[k];
      OneMoreReport(j.env, heard, true, t, Report(n, b.result), b.status);
      SoundFolds(j.env, n, b, t);
    } else {
      assert heard + [] == heard;
    }
  }

  lemma {:induction false} FoldReads(j: Job, reach: set<Key>, blocks: map<Key, Block>, order: seq<Key>)
    requires SoundBlocks(j, blocks)
    ensures TallyReads(j.env, ReportsIn(j.plan, reach, blocks, order), true, FoldOrder(j, reach, blocks, order))
  {
    if order != [] {
      var front, k := order[..|order| - 1], order[|order| - 1];
      FoldReads(j, reach, blocks, front);
      OneFoldReads(j, reach, blocks, k, ReportsIn(j.plan, reach, blocks, front), FoldOrder(j, reach, blocks, front));
    }
  }

  lemma {:induction false} AnswerReads(j: Job, reach: set<Key>, blocks: map<Key, Block>, order: seq<Key>,
          answer: string)
    requires SoundBlocks(j, blocks)
    ensures LastAnswer(j, reach, blocks, order, answer) ==
      LastSaid(ReportsIn(j.plan, reach, blocks, order), answer)
  {
    if order != [] {
      var front, k := order[..|order| - 1], order[|order| - 1];
      AnswerReads(j, reach, blocks, front, answer);
      var heard := ReportsIn(j.plan, reach, blocks, front);
      if Reports(j.plan, reach, blocks, k) {
        assert (heard + [Report(j.plan.nodes[k], blocks[k].result)])[..|heard|] == heard;
      } else {
        assert heard + [] == heard;
      }
    }
  }

  /** A full-chain request, under any schedules its waves complete with: it is judged by the
      last results of its processed blocks in plan order, each of them the driver's, and its
      answer is the last one given. */
  lemma WavesAreJudged(j: Job, scheds: seq<seq<Key>>, breaker: Breaker)
    requires PlanShape(j.plan) && Finishes(j, AllWaves(j.plan), scheds, Origin(breaker))
    ensures var end := RunUnder(j, AllWaves(j.plan), scheds, Origin(breaker));
            var heard := ReportsIn(j.plan, ReachSet(NeutralArcs(j.plan.edges), j.plan.start), end.blocks, j.plan.order);
            var out := OutputUnder(j, scheds, breaker);
            && Judged(j.env, j.count, heard, true, out)
            && out.answer == LastSaid(heard, end.w.answer) && out.steps == end.w.steps
            && forall h :: h in heard ==> FromDriver(j.env, h.block, h.r)
  {
    RunSound(j, AllWaves(j.plan), scheds, Origin(breaker));
    var end := RunUnder(j, AllWaves(j.plan), scheds, Origin(breaker));
    var reach := NeutralReach(j.plan);
    AssembleIsJudged(j, reach, end);
    ReportsFromDriver(j, reach, end.blocks, j.plan.order);
  }

  lemma AssembleIsJudged(j: Job, reach: set<Key>, end: Progress)
    requires SoundBlocks(j, end.blocks)
    ensures var heard, out := ReportsIn(j.plan, reach, end.blocks, j.plan.order), Assemble(j, reach, end);
            Judged(j.env, j.count, heard, true, out) && out.answer == LastSaid(heard, end.w.answer) &&
            out.steps == end.w.steps
  {
    FoldReads(j, reach, end.blocks, j.plan.order);
    AnswerReads(j, reach, end.blocks, j.plan.order, end.w.answer);
    CloseJudges(j, end.w.(answer := LastAnswer(j, reach, end.blocks, j.plan.order, end.w.answer)),
      FoldOrder(j, reach, end.blocks, j.plan.order), ReportsIn(j.plan, reach, end.blocks, j.plan.order), true);
  }

  lemma {:induction false} ReportsFromDriver(j: Job, reach: set<Key>, blocks: map<Key, Block>, order: seq<Key>)
    requires SoundBlocks(j, blocks)
    ensures forall h :: h in ReportsIn(j.plan, reach, blocks, order) ==> FromDriver(j.env, h.block, h.r)
  {
    if order != [] {
      ReportsFromDriver(j, reach, blocks, order[..|order| - 1]);
    }
  }

  /** The executor that runs each wave in plan order among them. */
  lemma FullChainIsJudged(j: Job, breaker: Breaker)
    requires PlanShape(j.plan) && Distinct(j.plan.order)
    ensures var end := WavesInOrder(j, breaker);
            var heard := ReportsIn(j.plan, ReachSet(NeutralArcs(j.plan.edges), j.plan.start), end.blocks, j.plan.order);
            var out := FullChainOutput(j, breaker);
            && Judged(j.env, j.count, heard, true, out)
            && out.answer == LastSaid(heard, end.w.answer) && out.steps == end.w.steps
            && forall h :: h in heard ==> FromDriver(j.env, h.block, h.r)
  {
    var scheds := PlanOrderRun(j, breaker);
    WavesAreJudged(j, scheds, breaker);
  }

  // --- The linear walker -------------------------------------------------------------------------

  /** What a visited block heard, if it is a provider block, and what its visit leaves. */
  function SeenAt(j: Job, n: Node, idx: nat, w: Walk): seq<Report> {
    if n.kind in {StartKind, JoinKind} then []
    else
      var (skip, w1) := Resolve(j.env, n, w);
      [Report(n, if skip then BLANK else Exec(j.env, j.max, n, idx, w1).0.result)]
  }

  function LeftAt(j: Job, n: Node, idx: nat, w: Walk): (Walk, nat) {
    if n.kind in {StartKind, JoinKind} then (w, idx)
    else
      var (skip, w1) := Resolve(j.env, n, w);
      (if skip then Skipped(n, idx, w1) else Exec(j.env, j.max, n, idx, w1).1, idx + 1)
  }

  /** The provider blocks the walk visits, with what each heard. */
  function SeenFrom(j: Job, visited: set<Key>, node: Option<Key>, idx: nat, w: Walk): seq<Report>
    decreases j.plan.nodes.Keys - visited
  {
    if node.None? || w.steps >= j.max || node.value in visited || node.value !in j.plan.nodes then []
    else
      var n := j.plan.nodes[node.value];
      var (w', idx') := LeftAt(j, n, idx, w);
      SeenAt(j, n, idx, w) + SeenFrom(j, visited + {node.value}, NextInFullChain(j.plan, node.value), idx', w')
  }

  lemma NoteReads(env: Env, max: int, n: Node, idx: nat, w: Walk, heard: seq<Report>, t: Tally)
    requires TallyReads(env, heard, false, t)
    ensures var run := Exec(env, max, n, idx, w).0;
            TallyReads(env, heard + [Report(n, run.result)], false, Note(env, n, run, t)) &&
            FromDriver(env, n, run.result)
  {
    var m := AttemptsExactly(env, max, n, idx, w);
    var run := RunAfter(env, n, m);
    var h := Report(n, run.result);
    OneMoreReport(env, heard, false, t, h, Note(env, n, run, t).lastStatus);
  }

  lemma VisitReads(j: Job, n: Node, idx: nat, w: Walk, t: Tally, heard: seq<Report>)
    requires TallyReads(j.env, heard, false, t)
    ensures var (w', t', idx') := Visit(j, n, idx, w, t);
            && (w', idx') == LeftAt(j, n, idx, w) && TallyReads(j.env, heard + SeenAt(j, n, idx, w), false, t')
            && forall h :: h in SeenAt(j, n, idx, w) ==> FromDriver(j.env, h.block, h.r)
  {
    if !IsProvider(n) {
      assert heard + [] == heard;
    } else {
      var (skip, w1) := Resolve(j.env, n, w);
      if skip {
        OneMoreReport(j.env, heard, false, t, Report(n, BLANK), SkipStatus);
      } else {
        NoteReads(j.env, j.max, n, idx, w1, heard, t);
      }
    }
  }

  predicate Stopped(j: Job, visited: set<Key>, node: Option<Key>, w: Walk) {
    node.None? || w.steps >= j.max || node.value in visited || node.value !in j.plan.nodes
  }

  lemma WalkUnfolds(j: Job, visited: set<Key>, node: Option<Key>, idx: nat, w: Walk, t: Tally, heard: seq<Report>)
    returns (next: Option<Key>, idx': nat, w': Walk, t': Tally, seen: seq<Report>)
    requires !Stopped(j, visited, node, w) && TallyReads(j.env, heard, false, t)
    ensures WalkFrom(j, visited, node, idx, w, t) == WalkFrom(j, visited + {node.value}, next, idx', w', t')
    ensures SeenFrom(j, visited, node, idx, w) == seen + SeenFrom(j, visited + {node.value}, next, idx', w')
    ensures TallyReads(j.env, heard + seen, false, t')
    ensures forall h :: h in seen ==> FromDriver(j.env, h.block, h.r)
  {
    var n := j.plan.nodes[node.value];
    VisitReads(j, n, idx, w, t, heard);
    next, seen := NextInFullChain(j.plan, node.value), SeenAt(j, n, idx, w);
    var left := Visit(j, n, idx, w, t);
    w', t', idx' := left.0, left.1, left.2;
  }

  ghost predicate Read(j: Job, heard: seq<Report>, seen: seq<Report>, t: Tally) {
    TallyReads(j.env, heard + seen, false, t) && forall h :: h in seen ==> FromDriver(j.env, h.block, h.r)
  }

  lemma ReadOn(j: Job, heard: seq<Report>, seen: seq<Report>, rest: seq<Report>, t: Tally)
    requires Read(j, heard + seen, rest, t) && forall h :: h in seen ==> FromDriver(j.env, h.block, h.r)
    ensures Read(j, heard, seen + rest, t)
  {
    assert heard + seen + rest == heard + (seen + rest);
  }

  lemma {:induction false} WalkReads(j: Job, visited: set<Key>, node: Option<Key>, idx: nat, w: Walk, t: Tally,
          heard: seq<Report>)
    requires TallyReads(j.env, heard, false, t)
    ensures Read(j, heard, SeenFrom(j, visited, node, idx, w), WalkFrom(j, visited, node, idx, w, t).1)
    decreases j.plan.nodes.Keys - visited
  {
    if Stopped(j, visited, node, w) {
      assert heard + [] == heard;
    } else {
      var next, idx', w', t', seen := WalkUnfolds(j, visited, node, idx, w, t, heard);
      WalkReads(j, visited + {node.value}, next, idx', w', t', heard + seen);
      ReadOn(j, heard, seen, SeenFrom(j, visited + {node.value}, next, idx', w'),
        WalkFrom(j, visited + {node.value}, next, idx', w', t').1);
    }
  }

  /** A request of the linear walker is judged by what its blocks heard in walk order. */
  lemma LinearIsJudged(j: Job, breaker: Breaker)
    ensures var heard, out := SeenFrom(j, {}, Some(j.plan.start), 0, FreshWalk(breaker)), LegacyOutput(j, breaker);
            && Judged(j.env, j.count, heard, false, out)
            && out.answer == LegacyEnd(j, breaker).answer && out.steps == LegacyEnd(j, breaker).steps
            && forall h :: h in heard ==> FromDriver(j.env, h.block, h.r)
  {
    var heard := SeenFrom(j, {}, Some(j.plan.start), 0, FreshWalk(breaker));
    var (w, t) := WalkFrom(j, {}, Some(j.plan.start), 0, FreshWalk(breaker), NO_TALLY);
    WalkReads(j, {}, Some(j.plan.start), 0, FreshWalk(breaker), NO_TALLY, []);
    assert [] + heard == heard;
    CloseJudges(j, w, t, heard, false);
  }
}
