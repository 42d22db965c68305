/** Exactly when opening a legacy full-chain chain in the editor leaves its results alone.
    Three families of drivers tell the two executors apart whenever the condition fails. */
module Exactness {
  import opened Text
  import opened Graph
  import opened Chains
  import opened Validate
  import opened Plans
  import opened Merge
  import opened Cooldown
  import opened Walks
  import opened FullChain
  import opened Legacy
  import opened Migration
  import opened Refinement
  import Branches
  import Budget
  import Confluence

  /** No answer block the walk meets may add its sources, whatever the installation's default. */
  ghost predicate SourcesOff(p: Plan) {
    forall k :: k in ProviderPath(p) && k in p.nodes && IsAnswer(p.nodes[k]) ==> p.nodes[k].sparse == Some(false)
  }

  /** If these schedules finish the run, it returns what the walker does on plan p. */
  ghost predicate AgreesUnder(p: Plan, j': Job, scheds: seq<seq<Key>>, breaker: Breaker)
    requires PlanShape(j'.plan)
  {
    Branches.Finishes(j', AllWaves(j'.plan), scheds, Origin(breaker)) ==>
      Branches.OutputUnder(j', scheds, breaker) == LegacyOutput(j'.(plan := p), breaker)
  }

  /** Both executors give the same output for every driver, budget, row cap and breaker, and
      for every interleaving of the waves' branches. */
  ghost predicate Unchanged(p: Plan, p': Plan)
    requires PlanShape(p')
  {
    forall env, max, count, breaker, scheds ::
      Confluence.AnswersComeWithSuccess(env, p) ==> AgreesUnder(p, Job(env, p', max, count), scheds, breaker)
  }

  /** The same for all drivers whatever, honest about their answers or not. */
  ghost predicate AlwaysUnchanged(p: Plan, p': Plan)
    requires PlanShape(p')
  {
    forall env, max, count, breaker, scheds :: AgreesUnder(p, Job(env, p', max, count), scheds, breaker)
  }

  /** The walk meets one answer block at most. */
  ghost predicate OneAnswer(p: Plan) {
    forall a, b :: 0 <= a < b < |ProviderPath(p)| ==> !(AnswersAt(p, a) && AnswersAt(p, b))
  }

  // --- Drivers that answer every attempt of a block alike ------------------------------------

  ghost predicate Steady(env: Env) {
    && env.threshold <= 0
    && (forall k, a :: env.call(k, a) == env.call(k, 0) && !env.call(k, a).permanent && env.call(k, a).stages <= 1)
    && (forall p :: !env.unconfigured(p) && !env.unknownDriver(p))
  }

  predicate Calm(w: Walk) {
    w.dead == {} && w.breaker == NO_BREAKER
  }

  function SteadyRun(env: Env, n: Node): NodeRun {
    var r := env.call(n.key, 0);
    NodeRun(if Wins(env, n, r) then StepRows(env, n, r) else [], Wins(env, n, r), r, true)
  }

  lemma {:induction false} ExecSteady(env: Env, max: int, n: Node, idx: nat, a: nat, w: Walk, last: Result,
          attempted: bool)
    requires Steady(env) && Calm(w) && a <= n.retries && w.steps + n.retries + 1 - a <= max
    ensures var (run, w') := ExecFrom(env, max, n, idx, a, w, last, attempted);
            run == SteadyRun(env, n) && Calm(w') && w.steps <= w'.steps <= w.steps + n.retries + 1 - a
    decreases n.retries + 1 - a
  {
    var r := env.call(n.key, a);
    assert r == env.call(n.key, 0);
    var w1 := AfterCall(env, n, idx, a, w);
    if !Wins(env, n, r) && a < n.retries {
      ExecSteady(env, max, n, idx, a + 1, w1, r, true);
    } else if !Wins(env, n, r) {
      assert ExecFrom(env, max, n, idx, a + 1, w1, r, true) == (NodeRun([], false, r, true), w1);
    }
  }

  const TURNS := 11

  ghost predicate Accepted(p: Plan) {
    PlanShape(p) && forall k :: k in p.nodes ==> 0 <= p.nodes[k].retries < TURNS
  }

  function SteadyBlock(env: Env, n: Node): Block {
    if IsProvider(n) then BlockOf(n, SteadyRun(env, n)) else Block(OkStatus, [], NO_RESULT, "")
  }

  lemma ProcessSteady(env: Env, max: int, n: Node, idx: nat, w: Walk)
    requires Steady(env) && Calm(w) && 0 <= n.retries < TURNS && w.steps + TURNS <= max
    ensures var (block, w') := Process(env, max, n, idx, w);
            block == SteadyBlock(env, n) && Calm(w') && w'.steps <= w.steps + TURNS
  {
    if IsProvider(n) {
      assert Resolve(env, n, w) == (false, w);
      ExecSteady(env, max, n, idx, 0, w, NO_RESULT, false);
    }
  }

  function NoteOne(env: Env, n: Node, t: Tally): Tally {
    if IsProvider(n) then Note(env, n, SteadyRun(env, n), t) else t
  }

  lemma VisitSteady(j: Job, n: Node, idx: nat, w: Walk, t: Tally)
    requires Steady(j.env) && Calm(w) && 0 <= n.retries < TURNS && w.steps + TURNS <= j.max
    ensures var (w', t', _) := Visit(j, n, idx, w, t);
            t' == NoteOne(j.env, n, t) && Calm(w') && w'.steps <= w.steps + TURNS
  {
    if IsProvider(n) {
      assert Resolve(j.env, n, w) == (false, w);
      ExecSteady(j.env, j.max, n, idx, 0, w, NO_RESULT, false);
    }
  }

  // --- What the two executors make of them ------------------------------------------------------

  function NotePath(env: Env, p: Plan, keys: seq<Key>): Tally
    requires WaveHeld(p, keys)
  {
    if keys == [] then NO_TALLY
    else NoteOne(env, p.nodes[keys[|keys| - 1]], NotePath(env, p, keys[..|keys| - 1]))
  }

  lemma {:induction false} WalkSteady(j: Job, i: nat, idx: nat, w: Walk)
    requires Steady(j.env) && Accepted(j.plan) && Acyclic(NeutralArcs(j.plan.edges)) && Calm(w)
    requires i <= |LegacyPath(j.plan)| && WaveHeld(j.plan, LegacyPath(j.plan))
    requires w.steps + TURNS * (|LegacyPath(j.plan)| - i) < j.max
    ensures var path := LegacyPath(j.plan);
            WalkFrom(j, Elements(path[..i]), NodeAt(path, i), idx, w, NotePath(j.env, j.plan, path[..i])).1 ==
              NotePath(j.env, j.plan, path)
    decreases |LegacyPath(j.plan)| - i
  {
    var path := LegacyPath(j.plan);
    if i < |path| {
      var t := NotePath(j.env, j.plan, path[..i]);
      var n := j.plan.nodes[path[i]];
      VisitSteady(j, n, idx, w, t);
      WalkStep(j, i, idx, w, t);
      assert path[..i + 1][..i] == path[..i];
      var (w', t', idx') := Visit(j, n, idx, w, t);
      WalkSteady(j, i + 1, idx', w');
    } else {
      assert path[..i] == path;
    }
  }

  ghost predicate SteadyBlocks(j: Job, blocks: map<Key, Block>) {
    forall k :: k in blocks ==> k in j.plan.nodes && blocks[k] == SteadyBlock(j.env, j.plan.nodes[k])
  }

  lemma {:induction false} WaveSteady(j: Job, wave: seq<Key>, at: Progress)
    requires Steady(j.env) && Accepted(j.plan) && WaveHeld(j.plan, wave) && Calm(at.w) && SteadyBlocks(j, at.blocks)
    requires at.w.steps + TURNS * |wave| <= j.max
    ensures var next := RunWave(j, wave, at);
            && Calm(next.w) && SteadyBlocks(j, next.blocks) && next.w.steps <= at.w.steps + TURNS * |wave|
            && next.blocks.Keys == at.blocks.Keys + Elements(wave)
  {
    if wave != [] {
      var front, k := wave[..|wave| - 1], wave[|wave| - 1];
      WaveSteady(j, front, at);
      var mid := RunWave(j, front, at);
      ProcessSteady(j.env, j.max, j.plan.nodes[k], mid.nextIdx, mid.w);
      assert wave == front + [k];
    }
  }

  lemma {:induction false} RunSteady(j: Job, layers: seq<seq<Key>>, at: Progress)
    requires Steady(j.env) && Accepted(j.plan) && AllHeld(j.plan, layers) && Calm(at.w) && SteadyBlocks(j, at.blocks)
    requires at.w.steps + TURNS * |Flatten(layers)| < j.max
    ensures var end := RunLayers(j, layers, at);
            SteadyBlocks(j, end.blocks) && end.blocks.Keys == at.blocks.Keys + Elements(Flatten(layers))
    decreases |layers|
  {
    if layers != [] {
      WaveSteady(j, layers[0], at);
      RunSteady(j, layers[1..], RunWave(j, layers[0], at));
    }
  }

  /** With room to spare every reachable block is processed, and each result is known. */
  lemma WavesSteady(j: Job)
    requires Steady(j.env) && Accepted(j.plan) && Acyclic(NeutralArcs(j.plan.edges)) && Distinct(j.plan.order)
    requires NeutralReach(j.plan) <= Elements(j.plan.order) && j.max > TURNS * |j.plan.nodes|
    ensures var end := WavesInOrder(j, NO_BREAKER);
            SteadyBlocks(j, end.blocks) && end.blocks.Keys == NeutralReach(j.plan)
  {
    var layers, reach := AllWaves(j.plan), NeutralReach(j.plan);
    LayersOrder(j.plan, reach, {});
    Budget.FlattenHeld(j.plan, layers);
    Budget.FlattenDistinct(layers, {});
    DistinctWithin(Flatten(layers), j.plan.nodes.Keys);
    RunSteady(j, layers, Origin(NO_BREAKER));
    forall k
      ensures k in Flatten(layers) <==> k in reach
    {
      LayersComplete(j.plan, reach, {}, k);
    }
  }

  // --- Failing drivers: the last error shows which blocks ran, and in which order ----------------

  function Failing(text: Key -> string): Env {
    Env((k, a) => Result(false, [], "", text(k), false, "", 0), _ => false, _ => false, p => p, l => l, false, false, 0,
      0, _ => 0, (k, a) => 0)
  }

  /** The last text among the given blocks. */
  function LastText(text: Key -> string, among: set<Key>, order: seq<Key>): string {
    if order == [] then ""
    else if order[|order| - 1] in among && text(order[|order| - 1]) != "" then text(order[|order| - 1])
    else LastText(text, among, order[..|order| - 1])
  }

  lemma {:induction false} LastTextIs(text: Key -> string, among: set<Key>, order: seq<Key>, i: nat)
    requires i < |order| && order[i] in among && text(order[i]) != ""
    requires forall h :: i < h < |order| ==> text(order[h]) == ""
    ensures LastText(text, among, order) == text(order[i])
    decreases |order|
  {
    if i < |order| - 1 {
      LastTextIs(text, among, order[..|order| - 1], i);
    }
  }

  lemma {:induction false} LastTextNone(text: Key -> string, among: set<Key>, order: seq<Key>)
    requires forall k :: k in order ==> text(k) == ""
    ensures LastText(text, among, order) == ""
  {
    if order != [] {
      LastTextNone(text, among, order[..|order| - 1]);
    }
  }

  ghost predicate Failed(t: Tally) {
    t.merged == NOTHING && (t.lastStatus == NoStatus || t.lastStatus == FailStatus)
  }

  /** Only provider blocks have a text. */
  ghost predicate Texts(text: Key -> string, p: Plan) {
    forall k :: k !in ProviderKeys(p) ==> text(k) == ""
  }

  lemma {:induction false} FoldFailing(j: Job, text: Key -> string, reach: set<Key>, blocks: map<Key, Block>,
          order: seq<Key>)
    requires j.env == Failing(text) && SteadyBlocks(j, blocks)
    requires forall k :: k in j.plan.nodes ==> j.plan.nodes[k].key == k
    requires reach <= blocks.Keys && Texts(text, j.plan)
    ensures var t := FoldOrder(j, reach, blocks, order); Failed(t) && t.lastError == LastText(text, reach, order)
  {
    if order != [] {
      FoldFailing(j, text, reach, blocks, order[..|order| - 1]);
    }
  }

  lemma {:induction false} NoteFailing(p: Plan, text: Key -> string, among: set<Key>, keys: seq<Key>)
    requires WaveHeld(p, keys) && PlanShape(p) && Texts(text, p) && forall k :: k in keys ==> k in among
    ensures var t := NotePath(Failing(text), p, keys); Failed(t) && t.lastError == LastText(text, among, keys)
  {
    if keys != [] {
      assert keys[|keys| - 1] in keys;
      NoteFailing(p, text, among, keys[..|keys| - 1]);
    }
  }

  // --- A legacy plan and its migrated plan ----------------------------------------------------------

  /** A plan the executors run through, given a large budget. */
  ghost predicate Runnable(p: Plan) {
    Accepted(p) && Acyclic(NeutralArcs(p.edges)) && Distinct(p.order) && NeutralReach(p) <= Elements(p.order)
  }

  /** The two plans as far as the probes below depend on them. */
  ghost predicate Comparable(p: Plan, p': Plan, s: Key) {
    && Accepted(p) && Acyclic(NeutralArcs(p.edges)) && Runnable(p') && |p'.nodes| == |p.nodes| + 1
    && ProviderKeys(p') == ProviderKeys(p) &&
       (forall k :: k in p.nodes ==> k in p'.nodes && p'.nodes[k].mode == p.nodes[k].mode)
    && NeutralReach(p') == NeutralReach(p) + {s}
  }

  function Probe(p: Plan, env: Env): Job {
    Job(env, p, TURNS * (|p.nodes| + 2), 0)
  }

  lemma WalkTally(p: Plan, j: Job)
    requires PlanShape(p) && Accepted(p) && Acyclic(NeutralArcs(p.edges)) && j.plan == p && Steady(j.env)
    requires j.max > TURNS * |p.nodes|
    ensures WaveHeld(p, LegacyPath(p))
    ensures WalkFrom(j, {}, Some(p.start), 0, FreshWalk(NO_BREAKER), NO_TALLY).1 == NotePath(j.env, p, LegacyPath(p))
  {
    var path := LegacyPath(p);
    LegacyPathShape(p);
    DistinctWithin(path, p.nodes.Keys);
    assert path[..0] == [];
    assert Elements(path[..0]) == {};
    WalkSteady(j, 0, 0, FreshWalk(NO_BREAKER));
  }

  lemma Distinguished(p: Plan, p': Plan, env: Env)
    requires PlanShape(p') && Distinct(p'.order)
    requires FullChainOutput(Probe(p', env), NO_BREAKER) != LegacyOutput(Probe(p', env).(plan := p), NO_BREAKER)
    ensures !AlwaysUnchanged(p, p') && (Confluence.AnswersComeWithSuccess(env, p) ==> !Unchanged(p, p'))
  {
    var scheds := Branches.PlanOrderRun(Probe(p', env), NO_BREAKER);
    assert !AgreesUnder(p, Probe(p', env), scheds, NO_BREAKER);
  }

  lemma LegacyError(p: Plan, text: Key -> string, j: Job)
    requires Accepted(p) && Acyclic(NeutralArcs(p.edges)) && j.plan == p && j.env == Failing(text)
    requires j.max > TURNS * |p.nodes|
    requires Texts(text, p)
    ensures LegacyOutput(j, NO_BREAKER).error == LastText(text, Elements(LegacyPath(p)), LegacyPath(p))
  {
    WalkTally(p, j);
    NoteFailing(p, text, Elements(LegacyPath(p)), LegacyPath(p));
  }

  lemma FullChainError(p: Plan, text: Key -> string, j: Job)
    requires Runnable(p) && j.plan == p && j.env == Failing(text) && j.max > TURNS * |p.nodes|
    requires Texts(text, p)
    ensures FullChainOutput(j, NO_BREAKER).error == LastText(text, NeutralReach(p), p.order)
  {
    WavesSteady(j);
    FoldFailing(j, text, NeutralReach(p), WavesInOrder(j, NO_BREAKER).blocks, p.order);
  }

  /** The errors the two runs end with when every block fails. */
  lemma FailingErrors(p: Plan, p': Plan, s: Key, text: Key -> string)
    requires Comparable(p, p', s) && Texts(text, p)
    ensures FullChainOutput(Probe(p', Failing(text)), NO_BREAKER).error == LastText(text, NeutralReach(p'), p'.order)
    ensures LegacyOutput(Probe(p', Failing(text)).(plan := p), NO_BREAKER).error ==
      LastText(text, Elements(LegacyPath(p)), LegacyPath(p))
  {
    FullChainError(p', text, Probe(p', Failing(text)));
    LegacyError(p, text, Probe(p', Failing(text)).(plan := p));
  }

  lemma FailingOutputs(p: Plan, p': Plan, s: Key, text: Key -> string)
    requires Comparable(p, p', s) && Texts(text, p)
    requires LastText(text, Elements(LegacyPath(p)), LegacyPath(p)) != LastText(text, NeutralReach(p'), p'.order)
    ensures !Unchanged(p, p')
  {
    FailingErrors(p, p', s, text);
    FailingIsHonest(p, text);
    ErrorsTell(p, p', Failing(text));
  }

  lemma FailingIsHonest(p: Plan, text: Key -> string)
    ensures Confluence.AnswersComeWithSuccess(Failing(text), p)
  {
  }

  lemma ErrorsTell(p: Plan, p': Plan, env: Env)
    requires PlanShape(p') && Distinct(p'.order) && Confluence.AnswersComeWithSuccess(env, p)
    requires FullChainOutput(Probe(p', env), NO_BREAKER).error !=
      LegacyOutput(Probe(p', env).(plan := p), NO_BREAKER).error
    ensures !Unchanged(p, p')
  {
    Distinguished(p, p', env);
  }

  // --- Each part of the condition is necessary ---------------------------------------------------------

  lemma OffThePath(p: Plan, order: seq<Key>, reach: set<Key>, x: Key, text: Key -> string)
    requires x in reach && x in order && x !in LegacyPath(p)
    requires text(x) != "" && forall k :: k != x ==> text(k) == ""
    ensures LastText(text, reach, order) != LastText(text, Elements(LegacyPath(p)), LegacyPath(p))
  {
    LastTextNone(text, Elements(LegacyPath(p)), LegacyPath(p));
    LastTextSome(text, reach, order, x);
  }

  lemma {:induction false} LastTextSome(text: Key -> string, among: set<Key>, order: seq<Key>, x: Key)
    requires x in order && x in among && text(x) != ""
    ensures LastText(text, among, order) != ""
  {
    var front, last := order[..|order| - 1], order[|order| - 1];
    if !(last in among && text(last) != "") {
      assert x in front;
      LastTextSome(text, among, front, x);
    }
  }

  /** A reachable provider block off the walk's path runs only after migration. */
  lemma CoverageNeeded(p: Plan, p': Plan, s: Key)
    requires Comparable(p, p', s) && !WalkCovers(p)
    ensures !Unchanged(p, p')
  {
    var x :| x in NeutralReach(p) && x in ProviderKeys(p) && x !in Elements(LegacyPath(p));
    var text := (k: Key) => if k == x then "off the path" else "";
    assert x in Elements(p'.order);
    OffThePath(p, p'.order, NeutralReach(p'), x, text);
    FailingOutputs(p, p', s, text);
  }

  lemma Shifted(order: seq<Key>, s: Key, at: nat, x: nat)
    requires at <= |order| && x < |order|
    ensures (order[..at] + [s] + order[at..])[if x < at then x else x + 1] == order[x]
  {
  }

  /** With two failing blocks the later one in the list decides the error. */
  lemma LaterDecides(keys: seq<Key>, among: set<Key>, text: Key -> string, i: nat, h: nat)
    requires Distinct(keys) && i < h < |keys| && keys[h] in among && text(keys[h]) != ""
    requires forall k :: k != keys[i] && k != keys[h] ==> text(k) == ""
    ensures LastText(text, among, keys) == text(keys[h])
  {
    LastTextIs(text, among, keys, h);
  }

  lemma Misplaced(p: Plan, s: Key, at: nat, order: seq<Key>) returns (a: nat, b: nat, x: nat, y: nat)
    requires PlanShape(p) && Acyclic(NeutralArcs(p.edges)) && !WalkInPlanOrder(p)
    requires at <= |p.order| && order == p.order[..at] + [s] + p.order[at..]
    ensures a < b < |ProviderPath(p)| && y < x < |order| && order[x] == ProviderPath(p)[a]
    ensures order[y] == ProviderPath(p)[b]
  {
    var u, v;
    a, b, u, v :| 0 <= a < b < |ProviderPath(p)| && AtPlace(p, u, a) && AtPlace(p, v, b) && u >= v;
    LegacyPathShape(p);
    KeepMembers(LegacyPath(p), ProviderKeys(p));
    Shifted(p.order, s, at, u);
    Shifted(p.order, s, at, v);
    x, y := if u < at then u else u + 1, if v < at then v else v + 1;
  }

  function TwoTexts(u: Key, v: Key): Key -> string {
    (k: Key) => if k == u then "first" else if k == v then "second" else ""
  }

  /** Two lists that name u and v in opposite orders end with different texts. */
  lemma OppositeOrders(keys: seq<Key>, keys': seq<Key>, among: set<Key>, among': set<Key>, h: nat, i: nat, x: nat,
          y: nat)
    requires Distinct(keys) && Distinct(keys') && h < i < |keys| && y < x < |keys'|
    requires keys'[x] == keys[h] && keys'[y] == keys[i] && keys[i] in among && keys[h] in among'
    ensures var text := TwoTexts(keys[h], keys[i]); LastText(text, among, keys) != LastText(text, among', keys')
  {
    var text := TwoTexts(keys[h], keys[i]);
    LaterDecides(keys, among, text, h, i);
    LaterDecides(keys', among', text, y, x);
    assert "first" != "second" by {
      assert "first"[0] != "second"[0];
    }
  }

  lemma ProviderPlaces(p: Plan, a: nat, b: nat) returns (h: nat, i: nat)
    requires PlanShape(p) && Acyclic(NeutralArcs(p.edges)) && a < b < |ProviderPath(p)|
    ensures h < i < |LegacyPath(p)| && LegacyPath(p)[h] == ProviderPath(p)[a] && LegacyPath(p)[i] == ProviderPath(p)[b]
    ensures LegacyPath(p)[h] in ProviderKeys(p) && LegacyPath(p)[i] in ProviderKeys(p)
    ensures Distinct(LegacyPath(p)) && LegacyPath(p)[h] in NeutralReach(p)
  {
    h, i := KeepPlaces(LegacyPath(p), ProviderKeys(p), a, b);
    KeepMembers(LegacyPath(p), ProviderKeys(p));
    assert ProviderPath(p)[a] in ProviderPath(p) && ProviderPath(p)[b] in ProviderPath(p);
    PathInReach(p, h);
    LegacyPathShape(p);
  }

  lemma OppositeTexts(p: Plan, p': Plan, s: Key, a: nat, b: nat, x: nat, y: nat) returns (text: Key -> string)
    requires Comparable(p, p', s) && a < b < |ProviderPath(p)| && y < x < |p'.order|
    requires p'.order[x] == ProviderPath(p)[a] && p'.order[y] == ProviderPath(p)[b]
    ensures Texts(text, p)
    ensures LastText(text, Elements(LegacyPath(p)), LegacyPath(p)) != LastText(text, NeutralReach(p'), p'.order)
  {
    var path := LegacyPath(p);
    var h, i := ProviderPlaces(p, a, b);
    OppositeOrders(path, p'.order, Elements(path), NeutralReach(p'), h, i, x, y);
    text := TwoTexts(path[h], path[i]);
  }

  /** Provider blocks met out of plan order are merged in another order after migration. */
  lemma OutOfOrder(p: Plan, p': Plan, s: Key, a: nat, b: nat, x: nat, y: nat)
    requires Comparable(p, p', s) && a < b < |ProviderPath(p)| && y < x < |p'.order|
    requires p'.order[x] == ProviderPath(p)[a] && p'.order[y] == ProviderPath(p)[b]
    ensures !Unchanged(p, p')
  {
    var text := OppositeTexts(p, p', s, a, b, x, y);
    FailingOutputs(p, p', s, text);
  }

  // --- An answer block that may add its sources -----------------------------------------------------------

  const SOURCE := Row("", "", "", [])

  /** Only block z answers, and names a source; sources count unless a block says otherwise. */
  function Answering(z: Key): Env {
    Env((k, a) => if k == z then Result(true, [SOURCE], "ok", "", false, "!", 0)
      else Result(false, [], "", "", false, "", 0),
        _ => false, _ => false, p => p, l => l, false, true, 0, 0, _ => 0, (k, a) => 0)
  }

  lemma {:induction false} CollectedGrows(norm: KeyOf, m: Merged, provider: string, rows: seq<Row>)
    ensures AddRows(norm, m, provider, rows).collected == m.collected + |rows|
  {
    if rows != [] {
      CollectedGrows(norm, m, provider, rows[..|rows| - 1]);
    }
  }

  lemma Spoken()
    ensures !Blank("!")
  {
    assert !IsSpace("!"[0]);
  }

  lemma {:induction false} NoteAnswering(p: Plan, z: Key, keys: seq<Key>)
    requires WaveHeld(p, keys) && PlanShape(p) && z in keys && z in ProviderKeys(p) && IsAnswer(p.nodes[z])
    requires p.nodes[z].sparse != Some(false)
    ensures NotePath(Answering(z), p, keys).merged.collected > 0
  {
    var env, last := Answering(z), keys[|keys| - 1];
    var t := NotePath(env, p, keys[..|keys| - 1]);
    Spoken();
    CollectedGrows(env.norm, t.merged, env.display(p.nodes[last].providerId), SteadyRun(env, p.nodes[last]).rows);
    if last == z {
      assert SteadyRun(env, p.nodes[last]).rows == [SOURCE];
    } else {
      NoteAnswering(p, z, keys[..|keys| - 1]);
    }
  }

  lemma {:induction false} FoldAnswering(j: Job, z: Key, reach: set<Key>, blocks: map<Key, Block>, order: seq<Key>)
    requires j.env == Answering(z) && SteadyBlocks(j, blocks)
    requires forall k :: k in j.plan.nodes ==> j.plan.nodes[k].key == k
    requires z in j.plan.nodes && IsAnswer(j.plan.nodes[z])
    ensures FoldOrder(j, reach, blocks, order).merged == NOTHING
  {
    if order != [] {
      FoldAnswering(j, z, reach, blocks, order[..|order| - 1]);
      Spoken();
    }
  }

  function Collected(out: Output): nat {
    if out.stats.Some? then out.stats.value.collected else 0
  }

  lemma ClosedCollected(j: Job, w: Walk, t: Tally)
    ensures Collected(Close(j, w, t)) == t.merged.collected
  {
  }

  lemma LegacyCollects(p: Plan, z: Key, j: Job)
    requires Accepted(p) && Acyclic(NeutralArcs(p.edges)) && j.plan == p && j.env == Answering(z)
    requires j.max > TURNS * |p.nodes|
    requires z in LegacyPath(p) && z in ProviderKeys(p) && IsAnswer(p.nodes[z]) && p.nodes[z].sparse != Some(false)
    ensures Collected(LegacyOutput(j, NO_BREAKER)) > 0
  {
    WalkTally(p, j);
    NoteAnswering(p, z, LegacyPath(p));
    var (w, t) := WalkFrom(j, {}, Some(p.start), 0, FreshWalk(NO_BREAKER), NO_TALLY);
    ClosedCollected(j, w, t);
  }

  lemma FullChainDrops(p: Plan, z: Key, j: Job)
    requires Runnable(p) && j.plan == p && j.env == Answering(z) && j.max > TURNS * |p.nodes|
    requires z in p.nodes && IsAnswer(p.nodes[z])
    ensures Collected(FullChainOutput(j, NO_BREAKER)) == 0
  {
    WavesSteady(j);
    var end := WavesInOrder(j, NO_BREAKER);
    FoldAnswering(j, z, NeutralReach(p), end.blocks, p.order);
    ClosedCollected(j, end.w.(answer := LastAnswer(j, NeutralReach(p), end.blocks, p.order, end.w.answer)),
                    FoldOrder(j, NeutralReach(p), end.blocks, p.order));
  }

  /** The walker counts the sources of an answer block, the waves drop them. */
  lemma SourcesOffNeeded(p: Plan, p': Plan, s: Key)
    requires Comparable(p, p', s) && !SourcesOff(p)
    ensures !Unchanged(p, p')
  {
    var z :| z in ProviderPath(p) && z in p.nodes && IsAnswer(p.nodes[z]) && p.nodes[z].sparse != Some(false);
    KeepMembers(LegacyPath(p), ProviderKeys(p));
    SourcesCounted(p, p', s, z);
    AnswersHonest(p, z);
    Distinguished(p, p', Answering(z));
  }

  lemma AnswersHonest(p: Plan, z: Key)
    ensures Confluence.AnswersComeWithSuccess(Answering(z), p)
  {
  }

  lemma SourcesCounted(p: Plan, p': Plan, s: Key, z: Key)
    requires Comparable(p, p', s) && z in LegacyPath(p) && z in ProviderKeys(p)
    requires IsAnswer(p.nodes[z]) && p.nodes[z].sparse != Some(false)
    ensures Collected(FullChainOutput(Probe(p', Answering(z)), NO_BREAKER)) == 0
    ensures Collected(LegacyOutput(Probe(p', Answering(z)).(plan := p), NO_BREAKER)) > 0
  {
    LegacyCollects(p, z, Probe(p', Answering(z)).(plan := p));
    FullChainDrops(p', z, Probe(p', Answering(z)));
  }

  // --- Two answer blocks, the later of which attaches its answer to a failure --------------------------------

  /** Block u answers; block v fails, and yet has an answer. */
  function Doubtful(u: Key, v: Key): Env {
    Env((k, a) => if k == u then Result(true, [], "ok", "", false, "u", 0)
      else Result(false, [], "", "", false, if k == v then "v" else "", 0),
        _ => false, _ => false, p => p, l => l, false, false, 0, 0, _ => 0, (k, a) => 0)
  }

  lemma {:induction false} ExecWrites(env: Env, max: int, n: Node, idx: nat, a: nat, w: Walk, last: Result,
          attempted: bool)
    requires Steady(env) && Calm(w) && a <= n.retries && w.steps + n.retries + 1 - a <= max
    ensures var r := env.call(n.key, 0);
            ExecFrom(env, max, n, idx, a, w, last, attempted).1.answer == if HasAnswer(n, r) then r.answer else w.answer
    decreases n.retries + 1 - a
  {
    var r := env.call(n.key, a);
    assert r == env.call(n.key, 0);
    var w1 := AfterCall(env, n, idx, a, w);
    if !Wins(env, n, r) && a < n.retries {
      ExecWrites(env, max, n, idx, a + 1, w1, r, true);
    } else if !Wins(env, n, r) {
      assert ExecFrom(env, max, n, idx, a + 1, w1, r, true) == (NodeRun([], false, r, true), w1);
    }
  }

  lemma VisitWrites(j: Job, n: Node, idx: nat, w: Walk, t: Tally)
    requires Steady(j.env) && Calm(w) && 0 <= n.retries < TURNS && w.steps + TURNS <= j.max
    ensures var r := j.env.call(n.key, 0);
            Visit(j, n, idx, w, t).0.answer == if IsProvider(n) && HasAnswer(n, r) then r.answer else w.answer
  {
    if IsProvider(n) {
      assert Resolve(j.env, n, w) == (false, w);
      ExecWrites(j.env, j.max, n, idx, 0, w, NO_RESULT, false);
    }
  }

  lemma OneLetter()
    ensures !Blank("u") && !Blank("v") && Blank("") && "u" != "v"
  {
    assert !IsSpace("u"[0]) && !IsSpace("v"[0]) && "u"[0] != "v"[0];
  }

  /** Only v changes the answer once u is past. */
  lemma VisitSpeaks(j: Job, u: Key, v: Key, n: Node, idx: nat, w: Walk, t: Tally)
    requires j.env == Doubtful(u, v) && Calm(w) && 0 <= n.retries < TURNS && w.steps + TURNS <= j.max
    ensures var w' := Visit(j, n, idx, w, t).0;
            && Calm(w') && w'.steps <= w.steps + TURNS
            && (n.key == v && v != u && IsProvider(n) && IsAnswer(n) ==> w'.answer == "v")
            && (n.key != u && n.key != v ==> w'.answer == w.answer)
  {
    VisitSteady(j, n, idx, w, t);
    VisitWrites(j, n, idx, w, t);
    OneLetter();
  }

  /** Block v stands on the walk, u before it. */
  ghost predicate StandApart(p: Plan, u: Key, v: Key, a: nat, b: nat) {
    && a < b < |LegacyPath(p)| && LegacyPath(p)[a] == u && LegacyPath(p)[b] == v && Distinct(LegacyPath(p))
    && v in ProviderKeys(p) && IsAnswer(p.nodes[v]) && WaveHeld(p, LegacyPath(p))
    && forall k :: k in p.nodes ==> p.nodes[k].key == k
  }

  /** Past v the answer is the one v wrote. */
  ghost predicate Settled(b: nat, i: nat, w: Walk) {
    i > b ==> w.answer == "v"
  }

  lemma StepSpeaks(j: Job, u: Key, v: Key, a: nat, b: nat, i: nat, idx: nat, w: Walk, t: Tally)
    requires j.env == Doubtful(u, v) && StandApart(j.plan, u, v, a, b) && i < |LegacyPath(j.plan)| && Calm(w)
    requires Accepted(j.plan)
    requires w.steps + TURNS <= j.max && Settled(b, i, w)
    ensures var w' := Visit(j, j.plan.nodes[LegacyPath(j.plan)[i]], idx, w, t).0;
            Calm(w') && w'.steps <= w.steps + TURNS && Settled(b, i + 1, w')
  {
    VisitSpeaks(j, u, v, j.plan.nodes[LegacyPath(j.plan)[i]], idx, w, t);
  }

  lemma {:induction false} WalkEndsWith(j: Job, u: Key, v: Key, a: nat, b: nat, i: nat, idx: nat, w: Walk, t: Tally)
    requires j.env == Doubtful(u, v) && Accepted(j.plan) && Acyclic(NeutralArcs(j.plan.edges)) && Calm(w)
    requires StandApart(j.plan, u, v, a, b) && i <= |LegacyPath(j.plan)| && Settled(b, i, w)
    requires w.steps + TURNS * (|LegacyPath(j.plan)| - i) < j.max
    ensures WalkFrom(j, Elements(LegacyPath(j.plan)[..i]), NodeAt(LegacyPath(j.plan), i), idx, w, t).0.answer == "v"
    decreases |LegacyPath(j.plan)| - i
  {
    if i < |LegacyPath(j.plan)| {
      StepSpeaks(j, u, v, a, b, i, idx, w, t);
      WalkStep(j, i, idx, w, t);
      var (w', t', idx') := Visit(j, j.plan.nodes[LegacyPath(j.plan)[i]], idx, w, t);
      WalkEndsWith(j, u, v, a, b, i + 1, idx', w', t');
    }
  }

  lemma LegacyEndsWith(p: Plan, u: Key, v: Key, a: nat, b: nat, j: Job)
    requires Accepted(p) && Acyclic(NeutralArcs(p.edges)) && j.plan == p && j.env == Doubtful(u, v)
    requires j.max > TURNS * |p.nodes|
    requires a < b < |LegacyPath(p)| && LegacyPath(p)[a] == u && LegacyPath(p)[b] == v
    requires v in ProviderKeys(p) && IsAnswer(p.nodes[v])
    ensures LegacyOutput(j, NO_BREAKER).answer == "v"
  {
    var path := LegacyPath(p);
    LegacyPathShape(p);
    DistinctWithin(path, p.nodes.Keys);
    assert path[..0] == [] && Elements(path[..0]) == {};
    assert StandApart(p, u, v, a, b);
    WalkEndsWith(j, u, v, a, b, 0, 0, FreshWalk(NO_BREAKER), NO_TALLY);
  }

  lemma {:induction false} LastSuccessSpeaks(j: Job, u: Key, v: Key, reach: set<Key>, blocks: map<Key, Block>,
          order: seq<Key>, answer: string)
    requires j.env == Doubtful(u, v) && SteadyBlocks(j, blocks)
    requires forall k :: k in j.plan.nodes ==> j.plan.nodes[k].key == k
    requires u in order && u in blocks && Merges(j.plan, reach, u) && IsAnswer(j.plan.nodes[u])
    ensures LastAnswer(j, reach, blocks, order, answer) == "u"
  {
    var front, last := order[..|order| - 1], order[|order| - 1];
    OneLetter();
    if last != u {
      assert u in front;
      LastSuccessSpeaks(j, u, v, reach, blocks, front, answer);
    }
  }

  lemma AssembledAnswer(j: Job, reach: set<Key>, end: Progress)
    ensures Assemble(j, reach, end).answer == LastAnswer(j, reach, end.blocks, j.plan.order, end.w.answer)
  {
  }

  lemma FullChainEndsWith(p: Plan, u: Key, v: Key, j: Job)
    requires Runnable(p) && j.plan == p && j.env == Doubtful(u, v) && j.max > TURNS * |p.nodes|
    requires u in ProviderKeys(p) && IsAnswer(p.nodes[u]) && u in NeutralReach(p)
    ensures FullChainOutput(j, NO_BREAKER).answer == "u"
  {
    WavesSteady(j);
    var end := WavesInOrder(j, NO_BREAKER);
    LastSuccessSpeaks(j, u, v, NeutralReach(p), end.blocks, p.order, end.w.answer);
    AssembledAnswer(j, NeutralReach(p), end);
  }

  /** The walker keeps the answer written last, the waves prefer that of a success. */
  lemma OneAnswerNeeded(p: Plan, p': Plan, s: Key)
    requires Comparable(p, p', s) && !OneAnswer(p)
    ensures !AlwaysUnchanged(p, p')
  {
    var a, b :| 0 <= a < b < |ProviderPath(p)| && AnswersAt(p, a) && AnswersAt(p, b);
    var h, i := ProviderPlaces(p, a, b);
    var u, v := LegacyPath(p)[h], LegacyPath(p)[i];
    var env := Doubtful(u, v);
    LegacyEndsWith(p, u, v, h, i, Probe(p', env).(plan := p));
    FullChainEndsWith(p', u, v, Probe(p', env));
    OneLetter();
    Distinguished(p, p', env);
  }

  // --- The theorem ---------------------------------------------------------------------------------------------

  lemma Agrees(c: Chain, s: Key, at: nat, p: Plan, p': Plan, env: Env, max: int, count: int, scheds: seq<seq<Key>>,
          breaker: Breaker)
    requires Accepts(c) && !HasKey(c, s) && at <= |c.nodes| && forall x :: x in c.nodes ==> !x.kind.StartKind?
    requires WellFormed(c) && PlanOf(c) == Some(p) && PlanOf(Migrate(c, s, Entry(c), at)) == Some(p') && PlanShape(p')
    requires WalkCovers(p) && WalkInPlanOrder(p) && SourcesOff(p) && AnswersSettle(env, p)
    ensures AgreesUnder(p, Job(env, p', max, count), scheds, breaker)
  {
    var j' := Job(env, p', max, count);
    if Branches.Finishes(j', AllWaves(p'), scheds, Origin(breaker)) {
      WavesRefineWalker(c, s, at, j'.(plan := p), j', scheds, breaker);
    }
  }

  /** For an accepted legacy full-chain chain, migration leaves every output alone if and
      only if the walk meets all provider blocks that neutral edges reach, meets them in plan
      order, and its answer blocks keep their sources to themselves. */
  lemma MigrationExact(c: Chain, s: Key, at: nat, p: Plan, p': Plan)
    requires Accepts(c) && !HasKey(c, s) && at <= |c.nodes| && forall x :: x in c.nodes ==> !x.kind.StartKind?
    requires WellFormed(c) && PlanOf(c) == Some(p) && PlanOf(Migrate(c, s, Entry(c), at)) == Some(p') && PlanShape(p')
    ensures Unchanged(p, p') <==> WalkCovers(p) && WalkInPlanOrder(p) && SourcesOff(p)
  {
    ComparableHolds(c, s, at, p, p');
    if !WalkCovers(p) {
      CoverageNeeded(p, p', s);
    } else if !WalkInPlanOrder(p) {
      PlanFields(c);
      OrderMigrated(c, s, at, p, p');
      var a, b, x, y := Misplaced(p, s, at, p'.order);
      OutOfOrder(p, p', s, a, b, x, y);
    } else if !SourcesOff(p) {
      SourcesOffNeeded(p, p', s);
    } else {
      forall env, max, count, breaker, scheds | Confluence.AnswersComeWithSuccess(env, p)
        ensures AgreesUnder(p, Job(env, p', max, count), scheds, breaker)
      {
        Agrees(c, s, at, p, p', env, max, count, scheds, breaker);
      }
    }
  }

  /** For drivers that may attach an answer to a failed result as well, it does so if and
      only if, beyond that, the walk meets one answer block at most. */
  lemma MigrationExactAlways(c: Chain, s: Key, at: nat, p: Plan, p': Plan)
    requires Accepts(c) && !HasKey(c, s) && at <= |c.nodes| && forall x :: x in c.nodes ==> !x.kind.StartKind?
    requires WellFormed(c) && PlanOf(c) == Some(p) && PlanOf(Migrate(c, s, Entry(c), at)) == Some(p') && PlanShape(p')
    ensures AlwaysUnchanged(p, p') <==> WalkCovers(p) && WalkInPlanOrder(p) && SourcesOff(p) && OneAnswer(p)
  {
    MigrationExact(c, s, at, p, p');
    ComparableHolds(c, s, at, p, p');
    if !OneAnswer(p) {
      OneAnswerNeeded(p, p', s);
    } else if WalkCovers(p) && WalkInPlanOrder(p) && SourcesOff(p) {
      forall env, max, count, breaker, scheds
        ensures AgreesUnder(p, Job(env, p', max, count), scheds, breaker)
      {
        Agrees(c, s, at, p, p', env, max, count, scheds, breaker);
      }
    }
  }

  lemma OrderMigrated(c: Chain, s: Key, at: nat, p: Plan, p': Plan)
    requires WellFormed(c) && !HasKey(c, s) && at <= |c.nodes| && forall x :: x in c.nodes ==> !x.kind.StartKind?
    requires PlanOf(c) == Some(p) && PlanOf(Migrate(c, s, Entry(c), at)) == Some(p')
    ensures MigratedPlan(p, p', s, at) && Distinct(p'.order)
  {
    MigrationPlans(c, s, at);
    MigratedNodes(c, s, at);
    PlanIndex(Migrate(c, s, Entry(c), at));
    PlanFields(Migrate(c, s, Entry(c), at));
  }

  lemma ComparableHolds(c: Chain, s: Key, at: nat, p: Plan, p': Plan)
    requires Accepts(c) && !HasKey(c, s) && at <= |c.nodes| && forall x :: x in c.nodes ==> !x.kind.StartKind?
    requires WellFormed(c) && PlanOf(c) == Some(p) && PlanOf(Migrate(c, s, Entry(c), at)) == Some(p')
    ensures Comparable(p, p', s) && Acyclic(NeutralArcs(p.edges)) && PlanShape(p)
  {
    OrderMigrated(c, s, at, p, p');
    PlanNodes(c, p);
    AcceptedReach(c, p);
    PairComparable(p, p', s, at);
  }

  lemma PairComparable(p: Plan, p': Plan, s: Key, at: nat)
    requires MigratedPlan(p, p', s, at) && Distinct(p'.order) && Accepted(p) && Acyclic(NeutralArcs(p.edges))
    requires forall k :: k in p.nodes ==> k in p.order
    ensures Comparable(p, p', s)
  {
    MigratedAccepted(p, p', s, at);
    MigratedReach(p, p', s, at);
    SameProviders(p, p', s, at);
    ReachIsOld(p, p', s, at);
    OneNodeMore(p.nodes, p'.nodes, s);
  }

  lemma OneNodeMore(m: map<Key, Node>, m': map<Key, Node>, s: Key)
    requires s !in m && m'.Keys == m.Keys + {s}
    ensures |m'| == |m| + 1
  {
    assert |m'| == |m'.Keys| && |m| == |m.Keys|;
  }

  lemma MigratedAccepted(p: Plan, p': Plan, s: Key, at: nat)
    requires MigratedPlan(p, p', s, at) && Accepted(p)
    ensures Accepted(p') && forall k :: k in p.nodes ==> k in p'.nodes && p'.nodes[k].mode == p.nodes[k].mode
  {
    forall k | k in p'.nodes
      ensures 0 <= p'.nodes[k].retries < TURNS
    {
      assert k != s ==> p'.nodes[k] == Pin(p.nodes[k]);
    }
  }

  lemma PlanNodes(c: Chain, p: Plan)
    requires WellFormed(c) && PlanOf(c) == Some(p)
    ensures Accepted(p) && forall k :: k in p.nodes <==> k in p.order
  {
    PlanOfWellFormed(c);
    PlanIndex(c);
  }
}
