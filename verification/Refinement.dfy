/** The wave executor against the linear walker: on an accepted legacy full-chain chain whose
    walk meets every provider block the waves would reach, in plan order, and whose answer
    blocks keep their sources to themselves, adding a Start block changes nothing. */
module Refinement {
  import opened Text
  import opened Graph
  import opened Chains
  import opened Validate
  import opened Plans
  import opened Cooldown
  import opened Walks
  import opened FullChain
  import opened Legacy
  import opened Migration
  import Branches
  import Budget
  import Confluence

  function ProviderKeys(p: Plan): set<Key> {
    set k | k in p.nodes && IsProvider(p.nodes[k])
  }

  function Keep(order: seq<Key>, kept: set<Key>): seq<Key> {
    if order == [] then []
    else Keep(order[..|order| - 1], kept) + if order[|order| - 1] in kept then [order[|order| - 1]] else []
  }

  /** The provider blocks of the walk, in the order it meets them. */
  function ProviderPath(p: Plan): seq<Key> {
    Keep(LegacyPath(p), ProviderKeys(p))
  }

  /** The walk meets every provider block that neutral edges reach. */
  ghost predicate WalkCovers(p: Plan) {
    NeutralReach(p) * ProviderKeys(p) <= Elements(LegacyPath(p))
  }

  /** Provider block a of the walk stands at place x of the plan order. */
  ghost predicate AtPlace(p: Plan, x: int, a: int) {
    0 <= a < |ProviderPath(p)| && 0 <= x < |p.order| && p.order[x] == ProviderPath(p)[a]
  }

  /** The walk meets its provider blocks in the order of the plan. */
  ghost predicate WalkInPlanOrder(p: Plan) {
    forall a, b, x, y :: 0 <= a < b < |ProviderPath(p)| && AtPlace(p, x, a) && AtPlace(p, y, b) ==> x < y
  }

  ghost predicate NoSparseAnswers(env: Env, p: Plan) {
    forall k :: k in ProviderPath(p) && k in p.nodes && IsAnswer(p.nodes[k]) ==> !Sparse(env, p.nodes[k])
  }

  /** Of the answer blocks the walk meets, those after the first return answers only with
      successful results. */
  ghost predicate AnswersSettle(env: Env, p: Plan) {
    forall a, b :: 0 <= a < b < |ProviderPath(p)| && AnswersAt(p, a) && AnswersAt(p, b) ==>
      Confluence.AnswersHonestly(env, p.nodes[ProviderPath(p)[b]])
  }

  /** Provider block a of the walk is an answer block. */
  ghost predicate AnswersAt(p: Plan, a: int) {
    0 <= a < |ProviderPath(p)| && ProviderPath(p)[a] in p.nodes && IsAnswer(p.nodes[ProviderPath(p)[a]])
  }

  // --- Keeping some blocks of a list ---------------------------------------------------------

  lemma {:induction false} KeepMembers(order: seq<Key>, kept: set<Key>)
    ensures forall k :: k in Keep(order, kept) <==> k in order && k in kept
    ensures Distinct(order) ==> Distinct(Keep(order, kept))
  {
    if order != [] {
      var front, last := order[..|order| - 1], order[|order| - 1];
      KeepMembers(front, kept);
      assert order == front + [last];
      if Distinct(order) {
        forall i, h | 0 <= i < h < |front|
          ensures front[i] != front[h]
        {
          assert order[i] == front[i] && order[h] == front[h];
        }
        assert last !in front;
      }
    }
  }

  /** Kept blocks stand in their old order. */
  lemma {:induction false} KeepPlaces(order: seq<Key>, kept: set<Key>, a: nat, b: nat) returns (x: nat, y: nat)
    requires a < b < |Keep(order, kept)|
    ensures x < y < |order| && order[x] == Keep(order, kept)[a] && order[y] == Keep(order, kept)[b]
  {
    var front, last := order[..|order| - 1], order[|order| - 1];
    if b < |Keep(front, kept)| {
      x, y := KeepPlaces(front, kept, a, b);
    } else {
      KeepMembers(front, kept);
      assert Keep(front, kept)[a] in front;
      x :| 0 <= x < |front| && front[x] == Keep(front, kept)[a];
      y := |front|;
    }
  }

  lemma {:induction false} KeepAppend(a: seq<Key>, b: seq<Key>, kept: set<Key>)
    ensures Keep(a + b, kept) == Keep(a, kept) + Keep(b, kept)
  {
    if b == [] {
      assert a + b == a;
    } else {
      KeepAppend(a, b[..|b| - 1], kept);
      assert (a + b)[..|a + b| - 1] == a + b[..|b| - 1];
    }
  }

  ghost predicate InOrder(order: seq<Key>, path: seq<Key>) {
    && Distinct(order) && Distinct(path) && (forall k :: k in path ==> k in order)
    && forall a, b, x, y ::
      0 <= a < b < |path| && 0 <= x < |order| && 0 <= y < |order| && order[x] == path[a] && order[y] == path[b] ==>
      x < y
  }

  lemma LastIsLast(order: seq<Key>, path: seq<Key>, b: nat)
    requires InOrder(order, path) && order != [] && b < |path| && path[b] == order[|order| - 1]
    ensures b == |path| - 1
  {
    assert path[|path| - 1] in path;
    var y :| 0 <= y < |order| && order[y] == path[|path| - 1];
    assert order[|order| - 1] == path[b];
  }

  lemma ShorterInOrder(front: seq<Key>, last: Key, path: seq<Key>, rest: seq<Key>)
    requires InOrder(front + [last], path) && (if last in path then path == rest + [last] else path == rest)
    ensures InOrder(front, rest) && last !in front && last !in rest
  {
    var order := front + [last];
    forall x | 0 <= x < |front|
      ensures front[x] == order[x] && front[x] != last
    {
      assert order[|front|] == last;
    }
    forall a | 0 <= a < |rest|
      ensures rest[a] == path[a] && rest[a] in front && rest[a] != last
    {
      assert path[a] in path && path[a] in order;
      assert last in path ==> path[|rest|] == last;
    }
  }

  lemma {:induction false} KeepIs(order: seq<Key>, path: seq<Key>, kept: set<Key>)
    requires InOrder(order, path) && forall k :: k in order ==> (k in kept <==> k in path)
    ensures Keep(order, kept) == path
  {
    assert path != [] ==> path[0] in path;
    if order != [] {
      var front, last, rest := order[..|order| - 1], order[|order| - 1], path;
      assert order == front + [last];
      if last in path {
        var b :| 0 <= b < |path| && path[b] == last;
        LastIsLast(order, path, b);
        rest := path[..b];
        assert path == rest + [last];
      }
      ShorterInOrder(front, last, path, rest);
      KeepIs(front, rest, kept);
    }
  }

  lemma InsertKeeps(order: seq<Key>, s: Key, at: nat, kept: set<Key>)
    requires at <= |order| && s !in kept
    ensures Keep(order[..at] + [s] + order[at..], kept) == Keep(order, kept)
  {
    KeepAppend(order[..at], order[at..], kept);
    assert order[..at] + order[at..] == order;
    KeepAppend(order[..at] + [s], order[at..], kept);
    DropLast(order[..at], s, kept);
  }

  lemma DropLast(left: seq<Key>, s: Key, kept: set<Key>)
    requires s !in kept
    ensures Keep(left + [s], kept) == Keep(left, kept)
  {
    assert (left + [s])[..|left|] == left;
  }

  // --- What both plans reach ------------------------------------------------------------------

  lemma PathInReach(p: Plan, i: nat)
    requires PlanShape(p) && Acyclic(NeutralArcs(p.edges)) && i < |LegacyPath(p)|
    ensures Reaches(NeutralArcs(p.edges), p.start, LegacyPath(p)[i])
  {
    LegacyPathShape(p);
    PathSlice(NeutralArcs(p.edges), LegacyPath(p), 0, i + 1);
    assert PathFromTo(NeutralArcs(p.edges), LegacyPath(p)[0..i + 1], p.start, LegacyPath(p)[i]);
  }

  lemma MigratedArcs(p: Plan, p': Plan, s: Key, at: nat)
    requires MigratedPlan(p, p', s, at)
    ensures NeutralArcs(p'.edges) == NeutralArcs(p.edges) + {(s, p.start)}
  {
    forall i | 0 <= i < |p.edges|
      ensures p'.edges[i + 1] == p.edges[i]
    {
    }
    assert p'.edges[0] == Edge(s, p.start, NextCondition);
    forall a, b
      ensures (a, b) in NeutralArcs(p'.edges) <==> (a, b) in NeutralArcs(p.edges) || (a, b) == (s, p.start)
    {
      if (a, b) in NeutralArcs(p'.edges) {
        var i :| 0 <= i < |p'.edges| && Neutral(p'.edges[i].condition) &&
          (p'.edges[i].source, p'.edges[i].target) == (a, b);
        if i > 0 {
          assert p'.edges[i] == p.edges[i - 1];
        }
      }
      if (a, b) in NeutralArcs(p.edges) {
        var i :| 0 <= i < |p.edges| && Neutral(p.edges[i].condition) &&
          (p.edges[i].source, p.edges[i].target) == (a, b);
        assert p'.edges[i + 1] == p.edges[i];
      }
    }
  }

  lemma SourceIsOld(p: Plan, a: Key, b: Key)
    requires PlanShape(p) && EdgesKnown(p) && (a, b) in NeutralArcs(p.edges)
    ensures a in p.nodes && b in p.nodes
  {
    var x :| 0 <= x < |p.edges| && p.edges[x].source == a && p.edges[x].target == b;
    assert p.edges[x] in p.edges;
  }

  /** The setting shared by the lemmas below. */
  ghost predicate Setting(p: Plan, p': Plan, s: Key, at: nat) {
    && MigratedPlan(p, p', s, at) && Distinct(p'.order)
    && WalkCovers(p) && WalkInPlanOrder(p) && Acyclic(NeutralArcs(p.edges)) && Acyclic(NeutralArcs(p'.edges))
    && NeutralReach(p') <= Elements(p'.order)
    && (forall k :: k in p.nodes <==> k in p.order) && (forall k :: k in p.nodes ==> p.nodes[k].retries >= 0)
  }

  lemma SameProviders(p: Plan, p': Plan, s: Key, at: nat)
    requires MigratedPlan(p, p', s, at)
    ensures ProviderKeys(p') == ProviderKeys(p) && s !in ProviderKeys(p)
  {
    forall k
      ensures k in ProviderKeys(p') <==> k in ProviderKeys(p)
    {
      assert k in p.nodes ==> p'.nodes[k] == Pin(p.nodes[k]);
    }
  }

  lemma StartReaches(g: Arcs, s: Key, start: Key, x: Key)
    requires (s, start) in g && Reaches(g, start, x)
    ensures Reaches(g, s, x)
  {
    var q :| PathFromTo(g, q, start, x);
    var r := [s] + q;
    forall i | 0 <= i < |r| - 1
      ensures (r[i], r[i + 1]) in g
    {
    }
    assert PathFromTo(g, r, s, x);
  }

  /** The migrated executor reaches the Start block and what the old entry reaches. */
  lemma ReachIsOld(p: Plan, p': Plan, s: Key, at: nat)
    requires MigratedPlan(p, p', s, at)
    ensures NeutralReach(p') == NeutralReach(p) + {s}
  {
    var g, g' := NeutralArcs(p.edges), NeutralArcs(p'.edges);
    MigratedArcs(p, p', s, at);
    ReachesRefl(g, p.start);
    ReachesRefl(g', s);
    forall a, b | (a, b) in g' && a in NeutralReach(p) + {s}
      ensures b in NeutralReach(p) + {s}
    {
      if (a, b) != (s, p.start) {
        SourceIsOld(p, a, b);
        ReachesStep(g, p.start, a, b);
      }
    }
    forall k | k in NeutralReach(p')
      ensures k in NeutralReach(p) + {s}
    {
      var q :| PathFromTo(g', q, s, k);
      ClosedPath(g', NeutralReach(p) + {s}, q);
    }
    SubgraphReach(g, g', p.start);
    forall k | k in NeutralReach(p)
      ensures k in NeutralReach(p')
    {
      StartReaches(g', s, p.start, k);
    }
  }

  // --- The waves hold the walk's provider blocks, one at most in each -------------------------

  lemma InOneWave(layers: seq<seq<Key>>, k: Key, h: nat, i: nat)
    requires DisjointWaves(layers, {}) && h < |layers| && i < |layers| && k in layers[h] && k in layers[i]
    ensures h == i
  {
  }

  /** Consecutive blocks are joined by neutral arcs between reachable blocks, none into the
      entry. */
  ghost predicate Strung(p: Plan, path: seq<Key>) {
    forall i: nat :: StrungAt(p, path, i)
  }

  ghost predicate StrungAt(p: Plan, path: seq<Key>, i: nat) {
    0 < i < |path| ==>
      path[i] != p.start && path[i - 1] in NeutralReach(p) && (path[i - 1], path[i]) in NeutralArcs(p.edges)
  }

  lemma WalkIsStrung(p: Plan, p': Plan, s: Key, at: nat)
    requires MigratedPlan(p, p', s, at) && Acyclic(NeutralArcs(p.edges))
    ensures Strung(p', LegacyPath(p))
  {
    var path := LegacyPath(p);
    LegacyPathShape(p);
    MigratedArcs(p, p', s, at);
    ReachIsOld(p, p', s, at);
    forall i: nat
      ensures StrungAt(p', path, i)
    {
      if 0 < i < |path| {
        PathInReach(p, i - 1);
        assert path[i] in path;
      }
    }
  }

  lemma WaveBefore(p: Plan, layers: seq<seq<Key>>, a: Key, b: Key, i: nat) returns (h: nat)
    requires RespectsArcs(p, NeutralReach(p), {}, layers) && i < |layers| && b in layers[i]
    requires b != p.start && a in NeutralReach(p) && (a, b) in NeutralArcs(p.edges)
    ensures h < i && a in layers[h]
  {
    h :| 0 <= h < i && a in layers[h];
  }

  /** Along such a path the waves rise. */
  lemma {:induction false} PathRises(p: Plan, path: seq<Key>, layers: seq<seq<Key>>, a: nat, b: nat, h: nat, i: nat)
    requires Strung(p, path) && a < b < |path|
    requires DisjointWaves(layers, {}) && RespectsArcs(p, NeutralReach(p), {}, layers)
    requires h < |layers| && i < |layers| && path[a] in layers[h] && path[b] in layers[i]
    ensures h < i
  {
    assert StrungAt(p, path, b);
    var m := WaveBefore(p, layers, path[b - 1], path[b], i);
    if a == b - 1 {
      InOneWave(layers, path[a], h, m);
    } else {
      PathRises(p, path, layers, a, b - 1, h, m);
    }
  }

  lemma {:induction false} FlattenHas(layers: seq<seq<Key>>, k: Key)
    ensures k in Flatten(layers) <==> InSomeWave(layers, k)
  {
    if layers != [] {
      FlattenHas(layers[1..], k);
      InSomeWaveStep(layers[0], layers[1..], k);
      assert layers == [layers[0]] + layers[1..];
    }
  }

  lemma TailWaves(layers: seq<seq<Key>>)
    requires layers != [] && DisjointWaves(layers, {})
    ensures DisjointWaves(layers[1..], {})
    ensures forall k :: k in layers[0] ==> k !in Flatten(layers[1..])
  {
    var rest := layers[1..];
    assert forall i :: 0 <= i < |rest| ==> rest[i] == layers[i + 1];
    forall k | k in layers[0]
      ensures k !in Flatten(rest)
    {
      FlattenHas(rest, k);
    }
  }

  /** Blocks of an earlier wave come first when the waves are strung together. */
  lemma {:induction false} FlattenPlaces(layers: seq<seq<Key>>, x: nat, y: nat, h: nat, i: nat)
    requires DisjointWaves(layers, {}) && x < |Flatten(layers)| && y < |Flatten(layers)| && h < i < |layers|
    requires Flatten(layers)[x] in layers[h] && Flatten(layers)[y] in layers[i]
    ensures x < y
  {
    var rest, n := layers[1..], |layers[0]|;
    TailWaves(layers);
    FlattenHas(rest, Flatten(layers)[y]);
    assert Flatten(layers)[y] in rest[i - 1];
    assert y >= n;
    if h > 0 {
      assert Flatten(layers)[x] in rest[h - 1];
      FlattenHas(rest, Flatten(layers)[x]);
      assert x >= n;
      FlattenPlaces(rest, x - n, y - n, h - 1, i - 1);
    }
  }

  /** What the waves of the migrated plan are known to be. */
  ghost predicate WavesOf(p': Plan, layers: seq<seq<Key>>) {
    && DisjointWaves(layers, {}) && RespectsArcs(p', NeutralReach(p'), {}, layers)
    && forall k :: k in NeutralReach(p') <==> InSomeWave(layers, k)
  }

  lemma AllWavesAre(p': Plan)
    requires PlanShape(p') && Distinct(p'.order) && Acyclic(NeutralArcs(p'.edges))
    requires NeutralReach(p') <= Elements(p'.order)
    ensures WavesOf(p', AllWaves(p'))
  {
    LayersOrder(p', NeutralReach(p'), {});
    forall k
      ensures k in NeutralReach(p') <==> InSomeWave(Layers(p', NeutralReach(p'), {}), k)
    {
      LayersComplete(p', NeutralReach(p'), {}, k);
    }
  }

  /** A provider block of the waves is one the walk meets, and the other way round. */
  lemma ProvidersWalked(p: Plan, p': Plan, s: Key, at: nat, layers: seq<seq<Key>>, k: Key)
    requires Setting(p, p', s, at) && WavesOf(p', layers)
    ensures k in ProviderPath(p) <==> InSomeWave(layers, k) && k in ProviderKeys(p)
  {
    SameProviders(p, p', s, at);
    ReachIsOld(p, p', s, at);
    KeepMembers(LegacyPath(p), ProviderKeys(p));
    if k in LegacyPath(p) {
      var a :| 0 <= a < |LegacyPath(p)| && LegacyPath(p)[a] == k;
      PathInReach(p, a);
    }
  }

  /** Two provider blocks of the waves, in the order the walk meets them. */
  lemma ProvidersRise(p: Plan, p': Plan, s: Key, at: nat, layers: seq<seq<Key>>, a: nat, b: nat, h: nat, i: nat)
    requires Setting(p, p', s, at) && WavesOf(p', layers) && a < b < |ProviderPath(p)|
    requires h < |layers| && i < |layers| && ProviderPath(p)[a] in layers[h] && ProviderPath(p)[b] in layers[i]
    ensures h < i
  {
    var x, y := KeepPlaces(LegacyPath(p), ProviderKeys(p), a, b);
    WalkIsStrung(p, p', s, at);
    PathRises(p', LegacyPath(p), layers, x, y, h, i);
  }

  lemma OneOrOther(p: Plan, p': Plan, s: Key, at: nat, layers: seq<seq<Key>>, a: nat, b: nat, h: nat)
    requires Setting(p, p', s, at) && WavesOf(p', layers) && a < b < |ProviderPath(p)| && h < |layers|
    ensures !(ProviderPath(p)[a] in layers[h] && ProviderPath(p)[b] in layers[h])
  {
    if ProviderPath(p)[a] in layers[h] && ProviderPath(p)[b] in layers[h] {
      ProvidersRise(p, p', s, at, layers, a, b, h, h);
    }
  }

  lemma PlaceOf(path: seq<Key>, k: Key) returns (a: nat)
    requires k in path
    ensures a < |path| && path[a] == k
  {
    a :| 0 <= a < |path| && path[a] == k;
  }

  lemma SameWaveSame(p: Plan, p': Plan, s: Key, at: nat, layers: seq<seq<Key>>, h: nat, k: Key, k': Key)
    requires Setting(p, p', s, at) && WavesOf(p', layers) && h < |layers| && k in layers[h] && k' in layers[h]
    requires k in ProviderPath(p) && k' in ProviderPath(p)
    ensures k == k'
  {
    var a := PlaceOf(ProviderPath(p), k);
    var b := PlaceOf(ProviderPath(p), k');
    if a < b {
      OneOrOther(p, p', s, at, layers, a, b, h);
    } else if b < a {
      OneOrOther(p, p', s, at, layers, b, a, h);
    }
  }

  lemma OnePerWave(p: Plan, p': Plan, s: Key, at: nat, layers: seq<seq<Key>>, h: nat)
    requires Setting(p, p', s, at) && WavesOf(p', layers) && h < |layers|
    ensures |Keep(layers[h], ProviderKeys(p))| <= 1
  {
    var kept := Keep(layers[h], ProviderKeys(p));
    KeepMembers(layers[h], ProviderKeys(p));
    if |kept| > 1 {
      ProvidersWalked(p, p', s, at, layers, kept[0]);
      ProvidersWalked(p, p', s, at, layers, kept[1]);
      SameWaveSame(p, p', s, at, layers, h, kept[0], kept[1]);
    }
  }

  /** Each wave holds one provider block at most, and together they hold the provider blocks
      of the walk in the order the walk meets them. */
  lemma WavesFollowWalk(p: Plan, p': Plan, s: Key, at: nat)
    requires Setting(p, p', s, at)
    ensures forall h :: 0 <= h < |AllWaves(p')| ==> |Keep(AllWaves(p')[h], ProviderKeys(p'))| <= 1
    ensures Keep(Flatten(AllWaves(p')), ProviderKeys(p')) == ProviderPath(p)
  {
    var layers := AllWaves(p');
    AllWavesAre(p');
    SameProviders(p, p', s, at);
    forall h | 0 <= h < |layers|
      ensures |Keep(layers[h], ProviderKeys(p'))| <= 1
    {
      OnePerWave(p, p', s, at, layers, h);
    }
    StrungInOrder(p, p', s, at, layers);
    forall k | k in Flatten(layers)
      ensures k in ProviderKeys(p) <==> k in ProviderPath(p)
    {
      FlattenHas(layers, k);
      ProvidersWalked(p, p', s, at, layers, k);
    }
    KeepIs(Flatten(layers), ProviderPath(p), ProviderKeys(p));
  }

  lemma StrungInOrder(p: Plan, p': Plan, s: Key, at: nat, layers: seq<seq<Key>>)
    requires Setting(p, p', s, at) && WavesOf(p', layers)
    ensures InOrder(Flatten(layers), ProviderPath(p))
  {
    var all, path := Flatten(layers), ProviderPath(p);
    Budget.FlattenDistinct(layers, {});
    KeepMembers(LegacyPath(p), ProviderKeys(p));
    LegacyPathShape(p);
    forall k | k in path
      ensures k in all
    {
      ProvidersWalked(p, p', s, at, layers, k);
      FlattenHas(layers, k);
    }
    forall a, b, x, y | 0 <= a < b < |path| && 0 <= x < |all| && 0 <= y < |all| && all[x] == path[a] &&
      all[y] == path[b]
      ensures x < y
    {
      FlattenHas(layers, all[x]);
      FlattenHas(layers, all[y]);
      var h :| 0 <= h < |layers| && all[x] in layers[h];
      var i :| 0 <= i < |layers| && all[y] in layers[i];
      ProvidersRise(p, p', s, at, layers, a, b, h, i);
      FlattenPlaces(layers, x, y, h, i);
    }
  }

  // --- Logical blocks are transparent to the waves ---------------------------------------------

  /** The provider blocks alone, one after the other, from the c-th on. */
  function ListRun(j: Job, keys: seq<Key>, c: nat, g: Progress): Progress
    requires WaveHeld(j.plan, keys) && c <= |keys|
    decreases |keys| - c
  {
    if c == |keys| || g.w.steps >= j.max then g else ListRun(j, keys, c + 1, ProcessOne(j, keys[c], g))
  }

  /** The same state, and the same blocks as far as they are provider blocks. */
  ghost predicate SameWork(p: Plan, g: Progress, g': Progress) {
    && g.w == g'.w && g.nextIdx == g'.nextIdx
    && forall k :: k in ProviderKeys(p) ==> BlockAt(g.blocks, k) == BlockAt(g'.blocks, k)
  }

  lemma ProcessSame(j: Job, k: Key, g: Progress, g': Progress)
    requires k in j.plan.nodes && SameWork(j.plan, g, g')
    ensures IsProvider(j.plan.nodes[k]) ==> SameWork(j.plan, ProcessOne(j, k, g), ProcessOne(j, k, g'))
    ensures !IsProvider(j.plan.nodes[k]) ==> SameWork(j.plan, ProcessOne(j, k, g), g')
  {
  }

  lemma {:induction false} WaveSameWork(j: Job, wave: seq<Key>, g: Progress, g': Progress)
    requires WaveHeld(j.plan, wave) && SameWork(j.plan, g, g')
    ensures WaveHeld(j.plan, Keep(wave, ProviderKeys(j.plan)))
    ensures SameWork(j.plan, RunWave(j, wave, g), RunWave(j, Keep(wave, ProviderKeys(j.plan)), g'))
  {
    if wave != [] {
      var front, last, kept := wave[..|wave| - 1], wave[|wave| - 1], Keep(wave[..|wave| - 1], ProviderKeys(j.plan));
      WaveSameWork(j, front, g, g');
      ProcessSame(j, last, RunWave(j, front, g), RunWave(j, kept, g'));
      if last in ProviderKeys(j.plan) {
        assert (kept + [last])[..|kept|] == kept && Keep(wave, ProviderKeys(j.plan)) == kept + [last];
        assert RunWave(j, kept + [last], g') == ProcessOne(j, last, RunWave(j, kept, g'));
      } else {
        assert Keep(wave, ProviderKeys(j.plan)) == kept;
      }
    }
  }

  lemma OneBlockWave(j: Job, k: Key, g: Progress)
    requires k in j.plan.nodes
    ensures RunWave(j, [k], g) == ProcessOne(j, k, g)
  {
    assert [k][..0] == [];
  }

  /** Waves with one provider block at most run like the list of these blocks. */
  lemma {:induction false} LayersAreList(j: Job, layers: seq<seq<Key>>, keys: seq<Key>, c: nat, g: Progress,
          g': Progress)
    requires AllHeld(j.plan, layers) && WaveHeld(j.plan, keys) && c <= |keys| && SameWork(j.plan, g, g')
    requires forall h :: 0 <= h < |layers| ==> |Keep(layers[h], ProviderKeys(j.plan))| <= 1
    requires keys[c..] == Keep(Flatten(layers), ProviderKeys(j.plan))
    ensures SameWork(j.plan, RunLayers(j, layers, g), ListRun(j, keys, c, g'))
    decreases |layers|
  {
    if layers != [] && g.w.steps < j.max {
      var wave, rest := layers[0], layers[1..];
      var kept := Keep(wave, ProviderKeys(j.plan));
      KeepAppend(wave, Flatten(rest), ProviderKeys(j.plan));
      WaveSameWork(j, wave, g, g');
      if kept == [] {
        LayersAreList(j, rest, keys, c, RunWave(j, wave, g), g');
      } else {
        assert kept == [keys[c]] && keys[c + 1..] == keys[c..][1..];
        OneBlockWave(j, keys[c], g');
        LayersAreList(j, rest, keys, c + 1, RunWave(j, wave, g), ProcessOne(j, keys[c], g'));
      }
    }
  }

  // --- One block: the walker's visit is the executor's block and its merge ----------------------

  /** The answer a block ends with is the one it wrote last. */
  lemma {:induction false} ExecAnswer(env: Env, max: int, n: Node, idx: nat, a: nat, w: Walk, last: Result,
          attempted: bool)
    requires attempted && HasAnswer(n, last) ==> !last.ok
    ensures var (run, w') := ExecFrom(env, max, n, idx, a, w, last, attempted);
            && (BlockOf(n, run).answer != "" ==> w'.answer == BlockOf(n, run).answer)
            && (!IsAnswer(n) ==> w'.answer == w.answer && BlockOf(n, run).answer == "")
    decreases n.retries + 1 - a
  {
    if a < n.retries + 1 && w.steps < max {
      var r := env.call(n.key, a);
      assert HasAnswer(n, r) && r.ok ==> Wins(env, n, r);
      if !Wins(env, n, r) && !r.permanent {
        ExecAnswer(env, max, n, idx, a + 1, AfterCall(env, n, idx, a, w), r, true);
      }
    }
  }

  /** With an honest driver a block that ends without an answer wrote none. */
  lemma {:induction false} ExecHonest(env: Env, max: int, n: Node, idx: nat, a: nat, w: Walk, last: Result,
          attempted: bool)
    requires Confluence.AnswersHonestly(env, n) && IsProvider(n)
    requires attempted && HasAnswer(n, last) ==> !last.ok
    ensures var (run, w') := ExecFrom(env, max, n, idx, a, w, last, attempted);
            BlockOf(n, run).answer == "" ==> w'.answer == w.answer
    decreases n.retries + 1 - a
  {
    if a < n.retries + 1 && w.steps < max {
      var r := env.call(n.key, a);
      assert HasAnswer(n, r) ==> Wins(env, n, r);
      if !Wins(env, n, r) && !r.permanent {
        ExecHonest(env, max, n, idx, a + 1, AfterCall(env, n, idx, a, w), r, true);
      }
    }
  }

  lemma {:induction false} ExecAttempts(env: Env, max: int, n: Node, idx: nat, a: nat, w: Walk, last: Result,
          attempted: bool)
    requires attempted || (a < n.retries + 1 && w.steps < max)
    ensures ExecFrom(env, max, n, idx, a, w, last, attempted).0.attempted
    decreases n.retries + 1 - a
  {
    if a < n.retries + 1 && w.steps < max {
      var r := env.call(n.key, a);
      if !Wins(env, n, r) && !r.permanent {
        ExecAttempts(env, max, n, idx, a + 1, AfterCall(env, n, idx, a, w), r, true);
      }
    }
  }

  lemma {:induction false} ExecRows(env: Env, max: int, n: Node, idx: nat, a: nat, w: Walk, last: Result,
          attempted: bool)
    requires IsAnswer(n) ==> !Sparse(env, n)
    ensures IsAnswer(n) ==> ExecFrom(env, max, n, idx, a, w, last, attempted).0.rows == []
    decreases n.retries + 1 - a
  {
    if a < n.retries + 1 && w.steps < max {
      var r := env.call(n.key, a);
      if !Wins(env, n, r) && !r.permanent {
        ExecRows(env, max, n, idx, a + 1, AfterCall(env, n, idx, a, w), r, true);
      }
    }
  }

  lemma NoteIsFold(env: Env, n: Node, run: NodeRun, t: Tally)
    requires run.attempted && (IsAnswer(n) ==> run.rows == [])
    ensures Note(env, n, run, t) == FoldBlock(env, n, BlockOf(n, run), t)
  {
  }

  lemma VisitIsProcess(j: Job, n: Node, idx: nat, w: Walk, t: Tally)
    requires IsProvider(n) && n.retries >= 0 && w.steps < j.max && (IsAnswer(n) ==> !Sparse(j.env, n))
    ensures var (block, w') := Process(j.env, j.max, Pin(n), idx, w);
            && Visit(j, n, idx, w, t) == (w', FoldBlock(j.env, n, block, t), idx + 1)
            && (block.answer != "" ==> w'.answer == block.answer)
            && (!IsAnswer(n) ==> block.answer == "")
            && (Confluence.AnswersHonestly(j.env, n) && block.answer == "" ==> w'.answer == w.answer)
  {
    var (skip, w1) := Resolve(j.env, n, w);
    if !skip {
      ExecPinned(j.env, j.max, n, idx, 0, w1, NO_RESULT, false);
      ExecAnswer(j.env, j.max, n, idx, 0, w1, NO_RESULT, false);
      ExecAttempts(j.env, j.max, n, idx, 0, w1, NO_RESULT, false);
      ExecRows(j.env, j.max, n, idx, 0, w1, NO_RESULT, false);
      NoteIsFold(j.env, n, Exec(j.env, j.max, n, idx, w1).0, t);
      if Confluence.AnswersHonestly(j.env, n) {
        ExecHonest(j.env, j.max, n, idx, 0, w1, NO_RESULT, false);
      }
    }
  }

  // --- The merge pass sees the walk's provider blocks only ---------------------------------------

  lemma OrderKeepsPath(p: Plan, p': Plan, s: Key, at: nat)
    requires Setting(p, p', s, at)
    ensures Keep(p'.order, Elements(ProviderPath(p))) == ProviderPath(p)
  {
    var path := ProviderPath(p);
    OldOrderDistinct(p, p', s, at);
    LegacyPathShape(p);
    KeepMembers(LegacyPath(p), ProviderKeys(p));
    forall a, b, x, y | 0 <= a < b < |path| && 0 <= x < |p.order| && 0 <= y < |p.order| && p.order[x] == path[a] &&
      p.order[y] == path[b]
      ensures x < y
    {
      assert AtPlace(p, x, a) && AtPlace(p, y, b);
    }
    KeepIs(p.order, path, Elements(path));
    InsertKeeps(p.order, s, at, Elements(path));
  }

  lemma OldOrderDistinct(p: Plan, p': Plan, s: Key, at: nat)
    requires MigratedPlan(p, p', s, at) && Distinct(p'.order)
    ensures Distinct(p.order)
  {
    forall i, h | 0 <= i < h < |p.order|
      ensures p.order[i] != p.order[h]
    {
      assert p.order[i] == p'.order[if i < at then i else i + 1];
      assert p.order[h] == p'.order[if h < at then h else h + 1];
    }
  }

  lemma FoldSnoc(j: Job, reach: set<Key>, blocks: map<Key, Block>, front: seq<Key>, k: Key, answer: string)
    ensures FoldOrder(j, reach, blocks, front + [k]) ==
            if Merges(j.plan, reach, k) then FoldBlock(j.env, j.plan.nodes[k], BlockAt(blocks, k),
              FoldOrder(j, reach, blocks, front))
            else FoldOrder(j, reach, blocks, front)
    ensures LastAnswer(j, reach, blocks, front + [k], answer) ==
            if Merges(j.plan, reach, k) && BlockAt(blocks, k).answer != "" then BlockAt(blocks, k).answer
            else LastAnswer(j, reach, blocks, front, answer)
  {
    assert (front + [k])[..|front|] == front;
  }

  lemma {:induction false} FoldKept(j: Job, reach: set<Key>, blocks: map<Key, Block>, order: seq<Key>, kept: set<Key>,
          answer: string)
    requires forall k :: k in order && k !in kept ==> !Merges(j.plan, reach, k)
    ensures FoldOrder(j, reach, blocks, order) == FoldOrder(j, reach, blocks, Keep(order, kept))
    ensures LastAnswer(j, reach, blocks, order, answer) == LastAnswer(j, reach, blocks, Keep(order, kept), answer)
  {
    if order != [] {
      var front, last := order[..|order| - 1], order[|order| - 1];
      assert order == front + [last];
      FoldKept(j, reach, blocks, front, kept, answer);
      FoldSnoc(j, reach, blocks, front, last, answer);
      if last in kept {
        FoldSnoc(j, reach, blocks, Keep(front, kept), last, answer);
        assert Keep(order, kept) == Keep(front, kept) + [last];
      } else {
        assert Keep(order, kept) == Keep(front, kept);
      }
    }
  }

  lemma {:induction false} FoldIgnores(j: Job, reach: set<Key>, blocks: map<Key, Block>, order: seq<Key>, k: Key,
          b: Block, answer: string)
    requires k !in order
    ensures FoldOrder(j, reach, blocks[k := b], order) == FoldOrder(j, reach, blocks, order)
    ensures LastAnswer(j, reach, blocks[k := b], order, answer) == LastAnswer(j, reach, blocks, order, answer)
  {
    if order != [] {
      FoldIgnores(j, reach, blocks, order[..|order| - 1], k, b, answer);
    }
  }

  lemma {:induction false} FoldUnprocessed(j: Job, reach: set<Key>, blocks: map<Key, Block>, order: seq<Key>, i: nat,
          answer: string)
    requires i <= |order| && forall h :: i <= h < |order| ==> order[h] !in blocks
    ensures FoldOrder(j, reach, blocks, order) == FoldOrder(j, reach, blocks, order[..i])
    ensures LastAnswer(j, reach, blocks, order, answer) == LastAnswer(j, reach, blocks, order[..i], answer)
    decreases |order|
  {
    if i < |order| {
      var front := order[..|order| - 1];
      FoldUnprocessed(j, reach, blocks, front, i, answer);
      assert front[..i] == order[..i];
    } else {
      assert order[..i] == order;
    }
  }

  lemma {:induction false} NoAnswers(j: Job, reach: set<Key>, blocks: map<Key, Block>, order: seq<Key>, answer: string)
    requires forall k :: k in order ==> BlockAt(blocks, k).answer == ""
    ensures LastAnswer(j, reach, blocks, order, answer) == answer
  {
    if order != [] {
      NoAnswers(j, reach, blocks, order[..|order| - 1], answer);
    }
  }

  lemma {:induction false} FoldSame(j: Job, reach: set<Key>, blocks: map<Key, Block>, blocks': map<Key, Block>,
          order: seq<Key>, answer: string)
    requires forall k :: k in ProviderKeys(j.plan) ==> BlockAt(blocks, k) == BlockAt(blocks', k)
    ensures FoldOrder(j, reach, blocks, order) == FoldOrder(j, reach, blocks', order)
    ensures LastAnswer(j, reach, blocks, order, answer) == LastAnswer(j, reach, blocks', order, answer)
  {
    if order != [] {
      FoldSame(j, reach, blocks, blocks', order[..|order| - 1], answer);
    }
  }

  // --- The two runs side by side -----------------------------------------------------------------

  /** The jobs differ in the plan only, and answers behave. */
  ghost predicate SameJob(j: Job, j': Job, s: Key, at: nat) {
    && Setting(j.plan, j'.plan, s, at) && j' == j.(plan := j'.plan)
    && AnswersSettle(j.env, j.plan) && NoSparseAnswers(j.env, j.plan)
  }

  /** After c provider blocks the executor's blocks merge into the walker's tally and answer. */
  ghost predicate InStep(j': Job, path: seq<Key>, c: nat, g: Progress, t: Tally)
    requires c <= |path|
  {
    var reach := NeutralReach(j'.plan);
    && g.blocks.Keys == Elements(path[..c])
    && t == FoldOrder(j', reach, g.blocks, path[..c])
    && LastAnswer(j', reach, g.blocks, path[..c], g.w.answer) == g.w.answer
    && forall k :: k in g.blocks && k in j'.plan.nodes && !IsAnswer(j'.plan.nodes[k]) ==> g.blocks[k].answer == ""
  }

  function NodeAt(path: seq<Key>, i: nat): Option<Key> {
    if i < |path| then Some(path[i]) else None
  }

  /** One block: the executor's block and merge are the walker's visit. */
  lemma BlockMerges(j: Job, j': Job, reach: set<Key>, front: seq<Key>, k: Key, g: Progress, t: Tally)
    requires j' == j.(plan := j'.plan) && PathBlock(j, j', k) && k !in front && k in reach && g.w.steps < j.max
    requires t == FoldOrder(j', reach, g.blocks, front)
    requires LastAnswer(j', reach, g.blocks, front, g.w.answer) == g.w.answer
    requires Confluence.AnswersHonestly(j.env, j.plan.nodes[k]) || forall x :: x in front ==>
      BlockAt(g.blocks, x).answer == ""
    ensures var next := ProcessOne(j', k, g);
            var (w, t', idx) := Visit(j, j.plan.nodes[k], g.nextIdx, g.w, t);
            && next.w == w && next.nextIdx == idx && next.blocks == g.blocks[k := BlockAt(next.blocks, k)]
            && t' == FoldOrder(j', reach, next.blocks, front + [k])
            && LastAnswer(j', reach, next.blocks, front + [k], w.answer) == w.answer
            && (!IsAnswer(j.plan.nodes[k]) ==> BlockAt(next.blocks, k).answer == "")
  {
    var n, next := j.plan.nodes[k], ProcessOne(j', k, g);
    var b := Process(j'.env, j'.max, Pin(n), g.nextIdx, g.w).0;
    assert next.blocks == g.blocks[k := b];
    VisitIsProcess(j, n, g.nextIdx, g.w, t);
    FoldIgnores(j', reach, g.blocks, front, k, b, next.w.answer);
    FoldSnoc(j', reach, next.blocks, front, k, next.w.answer);
    assert FoldBlock(j.env, Pin(n), b, t) == FoldBlock(j.env, n, b, t);
    if b.answer == "" && !Confluence.AnswersHonestly(j.env, n) {
      NoAnswers(j', reach, g.blocks, front, next.w.answer);
    }
  }

  /** A provider block of the walk, as both runs find it. */
  ghost predicate PathBlock(j: Job, j': Job, k: Key) {
    && k in j.plan.nodes && k in j'.plan.nodes && j'.plan.nodes[k] == Pin(j.plan.nodes[k])
    && IsProvider(j.plan.nodes[k]) && j.plan.nodes[k].retries >= 0 &&
       (IsAnswer(j.plan.nodes[k]) ==> !Sparse(j.env, j.plan.nodes[k]))
  }

  lemma PathBlocks(j: Job, j': Job, s: Key, at: nat, c: nat)
    requires SameJob(j, j', s, at) && c < |ProviderPath(j.plan)|
    ensures PathBlock(j, j', ProviderPath(j.plan)[c])
    ensures ProviderPath(j.plan)[c] in NeutralReach(j'.plan) && ProviderPath(j.plan)[c] !in ProviderPath(j.plan)[..c]
  {
    var path := ProviderPath(j.plan);
    assert path[c] in path;
    LegacyPathShape(j.plan);
    KeepMembers(LegacyPath(j.plan), ProviderKeys(j.plan));
    var a :| 0 <= a < |LegacyPath(j.plan)| && LegacyPath(j.plan)[a] == path[c];
    PathInReach(j.plan, a);
    ReachIsOld(j.plan, j'.plan, s, at);
  }

  lemma OneMoreInStep(j: Job, j': Job, path: seq<Key>, c: nat, g: Progress, t: Tally)
    requires j' == j.(plan := j'.plan) && c < |path| && g.w.steps < j.max && InStep(j', path, c, g, t)
    requires PathBlock(j, j', path[c]) && path[c] in NeutralReach(j'.plan) && path[c] !in path[..c]
    requires Confluence.AnswersHonestly(j.env, j.plan.nodes[path[c]]) || forall x :: x in path[..c] ==>
      BlockAt(g.blocks, x).answer == ""
    ensures var next := ProcessOne(j', path[c], g);
            var (w, t', idx) := Visit(j, j.plan.nodes[path[c]], g.nextIdx, g.w, t);
            next.w == w && next.nextIdx == idx && InStep(j', path, c + 1, next, t')
  {
    BlockMerges(j, j', NeutralReach(j'.plan), path[..c], path[c], g, t);
    assert path[..c + 1] == path[..c] + [path[c]];
    assert Elements(path[..c + 1]) == Elements(path[..c]) + {path[c]};
  }

  /** A block whose driver may be dishonest follows no answer block. */
  lemma HonestOrFirst(j: Job, j': Job, s: Key, at: nat, c: nat, g: Progress, t: Tally)
    requires SameJob(j, j', s, at) && c < |ProviderPath(j.plan)| && InStep(j', ProviderPath(j.plan), c, g, t)
    requires PathBlock(j, j', ProviderPath(j.plan)[c])
    requires !Confluence.AnswersHonestly(j.env, j.plan.nodes[ProviderPath(j.plan)[c]])
    ensures forall x :: x in ProviderPath(j.plan)[..c] ==> BlockAt(g.blocks, x).answer == ""
  {
    var path := ProviderPath(j.plan);
    assert AnswersAt(j.plan, c);
    forall a | 0 <= a < c
      ensures BlockAt(g.blocks, path[a]).answer == ""
    {
      PathBlocks(j, j', s, at, a);
      assert !AnswersAt(j.plan, a);
    }
  }

  lemma BlockInStep(j: Job, j': Job, s: Key, at: nat, c: nat, g: Progress, t: Tally)
    requires SameJob(j, j', s, at) && c < |ProviderPath(j.plan)| && g.w.steps < j.max
    requires InStep(j', ProviderPath(j.plan), c, g, t)
    ensures PathBlock(j, j', ProviderPath(j.plan)[c])
    ensures var k := ProviderPath(j.plan)[c];
            var next := ProcessOne(j', k, g);
            var (w, t', idx) := Visit(j, j.plan.nodes[k], g.nextIdx, g.w, t);
            next.w == w && next.nextIdx == idx && InStep(j', ProviderPath(j.plan), c + 1, next, t')
  {
    PathBlocks(j, j', s, at, c);
    if !Confluence.AnswersHonestly(j.env, j.plan.nodes[ProviderPath(j.plan)[c]]) {
      HonestOrFirst(j, j', s, at, c, g, t);
    }
    OneMoreInStep(j, j', ProviderPath(j.plan), c, g, t);
  }

  /** Where the walk stands: c of its first i blocks are provider blocks. */
  ghost predicate Standing(p: Plan, i: nat, c: nat) {
    i <= |LegacyPath(p)| && c <= |ProviderPath(p)| && ProviderPath(p)[..c] == Keep(LegacyPath(p)[..i], ProviderKeys(p))
  }

  lemma NextStanding(p: Plan, i: nat, c: nat)
    requires Standing(p, i, c) && i < |LegacyPath(p)|
    ensures if LegacyPath(p)[i] in ProviderKeys(p)
            then c < |ProviderPath(p)| && ProviderPath(p)[c] == LegacyPath(p)[i] && Standing(p, i + 1, c + 1)
            else Standing(p, i + 1, c)
  {
    var path, kept := LegacyPath(p), ProviderKeys(p);
    KeepAppend(path[..i + 1], path[i + 1..], kept);
    assert path[..i + 1] + path[i + 1..] == path;
    assert path[..i + 1][..i] == path[..i];
    if path[i] in kept {
      assert Keep(path[..i + 1], kept) == ProviderPath(p)[..c] + [path[i]];
    }
  }

  lemma WholeStanding(p: Plan, i: nat, c: nat)
    requires Standing(p, i, c) && i == |LegacyPath(p)|
    ensures c == |ProviderPath(p)|
  {
    assert LegacyPath(p)[..i] == LegacyPath(p);
  }

  lemma NotYet(path: seq<Key>, c: nat, done: set<Key>)
    requires Distinct(path) && c <= |path| && done == Elements(path[..c])
    ensures forall h :: c <= h < |path| ==> path[h] !in done
  {
  }

  ghost predicate PathHeld(j': Job, path: seq<Key>) {
    WaveHeld(j'.plan, path) && Distinct(path)
  }

  lemma SimulationEnds(j: Job, j': Job, i: nat, c: nat, g: Progress, t: Tally)
    requires PathHeld(j', ProviderPath(j.plan)) && Standing(j.plan, i, c) && InStep(j', ProviderPath(j.plan), c, g, t)
    requires j'.max == j.max
    requires i == |LegacyPath(j.plan)| || g.w.steps >= j.max
    ensures var path, reach := ProviderPath(j.plan), NeutralReach(j'.plan);
            && ListRun(j', path, c, g) == g
            && WalkFrom(j, Elements(LegacyPath(j.plan)[..i]), NodeAt(LegacyPath(j.plan), i), g.nextIdx, g.w, t) ==
               (g.w, t)
            && t == FoldOrder(j', reach, g.blocks, path) &&
               LastAnswer(j', reach, g.blocks, path, g.w.answer) == g.w.answer
  {
    var path := ProviderPath(j.plan);
    NotYet(path, c, g.blocks.Keys);
    FoldUnprocessed(j', NeutralReach(j'.plan), g.blocks, path, c, g.w.answer);
    if i == |LegacyPath(j.plan)| {
      WholeStanding(j.plan, i, c);
    }
  }

  /** The linear walk is the run of its provider blocks alone, with the merge it makes. */
  lemma {:induction false} WalkIsList(j: Job, j': Job, s: Key, at: nat, i: nat, c: nat, g: Progress, t: Tally)
    requires SameJob(j, j', s, at) && PathHeld(j', ProviderPath(j.plan))
    requires Standing(j.plan, i, c) && InStep(j', ProviderPath(j.plan), c, g, t)
    ensures var path, reach := ProviderPath(j.plan), NeutralReach(j'.plan);
            var end := ListRun(j', path, c, g);
            && WalkFrom(j, Elements(LegacyPath(j.plan)[..i]), NodeAt(LegacyPath(j.plan), i), g.nextIdx, g.w, t)
               == (end.w, FoldOrder(j', reach, end.blocks, path))
            && LastAnswer(j', reach, end.blocks, path, end.w.answer) == end.w.answer
    decreases |LegacyPath(j.plan)| - i
  {
    if i == |LegacyPath(j.plan)| || g.w.steps >= j.max {
      SimulationEnds(j, j', i, c, g, t);
    } else {
      var k := LegacyPath(j.plan)[i];
      WalkStep(j, i, g.nextIdx, g.w, t);
      NextStanding(j.plan, i, c);
      if k in ProviderKeys(j.plan) {
        BlockInStep(j, j', s, at, c, g, t);
        WalkIsList(j, j', s, at, i + 1, c + 1, ProcessOne(j', k, g), Visit(j, j.plan.nodes[k], g.nextIdx, g.w, t).1);
      } else {
        WalkIsList(j, j', s, at, i + 1, c, g, t);
      }
    }
  }

  lemma WalkStep(j: Job, i: nat, idx: nat, w: Walk, t: Tally)
    requires PlanShape(j.plan) && Acyclic(NeutralArcs(j.plan.edges)) && i < |LegacyPath(j.plan)| && w.steps < j.max
    ensures var path := LegacyPath(j.plan);
            path[i] in j.plan.nodes &&
            var (w', t', idx') := Visit(j, j.plan.nodes[path[i]], idx, w, t);
            WalkFrom(j, Elements(path[..i]), NodeAt(path, i), idx, w, t) ==
            WalkFrom(j, Elements(path[..i + 1]), NodeAt(path, i + 1), idx', w', t')
  {
    var path := LegacyPath(j.plan);
    LegacyPathShape(j.plan);
    assert path[..i + 1] == path[..i] + [path[i]];
    assert Elements(path[..i + 1]) == Elements(path[..i]) + {path[i]};
    assert path[i] !in path[..i];
  }

  lemma PathIsHeld(j: Job, j': Job, s: Key, at: nat)
    requires SameJob(j, j', s, at)
    ensures PathHeld(j', ProviderPath(j.plan))
  {
    KeepMembers(LegacyPath(j.plan), ProviderKeys(j.plan));
    LegacyPathShape(j.plan);
    forall c | 0 <= c < |ProviderPath(j.plan)|
      ensures ProviderPath(j.plan)[c] in j'.plan.nodes
    {
      assert ProviderPath(j.plan)[c] in ProviderPath(j.plan);
    }
  }

  lemma WholeWalk(j: Job, j': Job, s: Key, at: nat, breaker: Breaker)
    requires SameJob(j, j', s, at) && PathHeld(j', ProviderPath(j.plan))
    ensures var path, reach := ProviderPath(j.plan), NeutralReach(j'.plan);
            var end := ListRun(j', path, 0, Origin(breaker));
            && WalkFrom(j, {}, Some(j.plan.start), 0, FreshWalk(breaker), NO_TALLY) ==
               (end.w, FoldOrder(j', reach, end.blocks, path))
            && LastAnswer(j', reach, end.blocks, path, end.w.answer) == end.w.answer
  {
    LegacyPathShape(j.plan);
    assert LegacyPath(j.plan)[..0] == [] && ProviderPath(j.plan)[..0] == [] && Elements([]) == {};
    WalkIsList(j, j', s, at, 0, 0, Origin(breaker), NO_TALLY);
  }

  lemma MergesPathOnly(j: Job, j': Job, s: Key, at: nat, blocks: map<Key, Block>, answer: string)
    requires SameJob(j, j', s, at)
    ensures var path, reach := ProviderPath(j.plan), NeutralReach(j'.plan);
            && FoldOrder(j', reach, blocks, j'.plan.order) == FoldOrder(j', reach, blocks, path)
            && LastAnswer(j', reach, blocks, j'.plan.order, answer) == LastAnswer(j', reach, blocks, path, answer)
  {
    var path, reach := ProviderPath(j.plan), NeutralReach(j'.plan);
    ReachIsOld(j.plan, j'.plan, s, at);
    SameProviders(j.plan, j'.plan, s, at);
    KeepMembers(LegacyPath(j.plan), ProviderKeys(j.plan));
    forall k | k in j'.plan.order && k !in Elements(path)
      ensures !Merges(j'.plan, reach, k)
    {
      assert k in ProviderKeys(j'.plan) <==> k in ProviderKeys(j.plan);
    }
    OrderKeepsPath(j.plan, j'.plan, s, at);
    FoldKept(j', reach, blocks, j'.plan.order, Elements(path), answer);
  }

  lemma AssembledAs(j: Job, j': Job, reach: set<Key>, end: Progress, end': Progress, path: seq<Key>)
    requires j'.count == j.count && SameWork(j'.plan, end, end')
    requires LastAnswer(j', reach, end'.blocks, path, end'.w.answer) == end'.w.answer
    requires FoldOrder(j', reach, end'.blocks, j'.plan.order) == FoldOrder(j', reach, end'.blocks, path)
    requires LastAnswer(j', reach, end'.blocks, j'.plan.order, end.w.answer) ==
      LastAnswer(j', reach, end'.blocks, path, end.w.answer)
    ensures Assemble(j', reach, end) == Close(j, end'.w, FoldOrder(j', reach, end'.blocks, path))
  {
    FoldSame(j', reach, end.blocks, end'.blocks, j'.plan.order, end.w.answer);
  }

  lemma RefinesInSetting(j: Job, j': Job, s: Key, at: nat, breaker: Breaker)
    requires SameJob(j, j', s, at)
    ensures FullChainOutput(j', breaker) == LegacyOutput(j, breaker)
    ensures WavesInOrder(j', breaker).w == LegacyEnd(j, breaker)
  {
    var path, g := ProviderPath(j.plan), Origin(breaker);
    PathIsHeld(j, j', s, at);
    WavesFollowWalk(j.plan, j'.plan, s, at);
    assert path[0..] == path;
    LayersAreList(j', AllWaves(j'.plan), path, 0, g, g);
    var end, end' := WavesInOrder(j', breaker), ListRun(j', path, 0, g);
    WholeWalk(j, j', s, at, breaker);
    MergesPathOnly(j, j', s, at, end'.blocks, end.w.answer);
    AssembledAs(j, j', NeutralReach(j'.plan), end, end', path);
  }

  lemma {:induction false} OneIsKept(order: seq<Key>, kept: set<Key>, x: Key, y: Key)
    requires |Keep(order, kept)| <= 1 && x in order && y in order && x in kept && y in kept
    ensures x == y
  {
    KeepMembers(order, kept);
    assert x in Keep(order, kept) && y in Keep(order, kept);
  }

  /** The waves of the migrated plan leave nothing to the schedule. */
  lemma WavesAreLone(p: Plan, p': Plan, s: Key, at: nat)
    requires Setting(p, p', s, at)
    ensures forall h :: 0 <= h < |AllWaves(p')| ==>
      Distinct(AllWaves(p')[h]) && Branches.SoleProvider(p', AllWaves(p')[h])
  {
    var layers := AllWaves(p');
    WavesFollowWalk(p, p', s, at);
    AllWavesAre(p');
    forall h, x, y | 0 <= h < |layers| && x in layers[h] && y in layers[h] && IsProvider(p'.nodes[x]) &&
      IsProvider(p'.nodes[y])
      ensures x == y
    {
      OneIsKept(layers[h], ProviderKeys(p'), x, y);
    }
  }

  lemma AnyScheduleRefines(j: Job, j': Job, s: Key, at: nat, scheds: seq<seq<Key>>, breaker: Breaker)
    requires SameJob(j, j', s, at) && Branches.Finishes(j', AllWaves(j'.plan), scheds, Origin(breaker))
    ensures Branches.OutputUnder(j', scheds, breaker) == LegacyOutput(j, breaker)
    ensures Branches.RunUnder(j', AllWaves(j'.plan), scheds, Origin(breaker)).w == LegacyEnd(j, breaker)
  {
    WavesAreLone(j.plan, j'.plan, s, at);
    Branches.LoneRun(j', AllWaves(j'.plan), scheds, Origin(breaker));
    RefinesInSetting(j, j', s, at, breaker);
  }

  /** On an accepted legacy full-chain chain whose walk covers the provider blocks neutral
      edges reach, in plan order, adding the Start block and running the wave executor gives
      the output of the linear walker, for every budget, driver, breaker state and
      interleaving of the branches: the same rows, statistics, providers, status, error,
      answer and step count; and the two runs record the same attempts under the same trace
      indices and leave the same breaker. An answer block that follows another must not
      attach answers to failed results. */
  lemma WavesRefineWalker(c: Chain, s: Key, at: nat, j: Job, j': Job, scheds: seq<seq<Key>>, breaker: Breaker)
    requires Accepts(c) && !HasKey(c, s) && at <= |c.nodes| && forall x :: x in c.nodes ==> !x.kind.StartKind?
    requires WellFormed(c) && PlanOf(c) == Some(j.plan) && PlanOf(Migrate(c, s, Entry(c), at)) == Some(j'.plan)
    requires PlanShape(j'.plan) && j' == j.(plan := j'.plan)
    requires WalkCovers(j.plan) && WalkInPlanOrder(j.plan)
    requires NoSparseAnswers(j.env, j.plan) && AnswersSettle(j.env, j.plan)
    requires Branches.Finishes(j', AllWaves(j'.plan), scheds, Origin(breaker))
    ensures Branches.OutputUnder(j', scheds, breaker) == LegacyOutput(j, breaker)
    ensures Branches.RunUnder(j', AllWaves(j'.plan), scheds, Origin(breaker)).w == LegacyEnd(j, breaker)
  {
    SettingHolds(c, s, at, j.plan, j'.plan);
    AnyScheduleRefines(j, j', s, at, scheds, breaker);
  }

  // --- Acceptance gives the setting ----------------------------------------------------------------

  lemma OnlyNewArc(g: Arcs, s: Key, start: Key, q: seq<Key>)
    requires (forall a, b :: (a, b) in g ==> b != s) && s != start && IsPath(g + {(s, start)}, q)
    ensures forall i :: 1 <= i < |q| ==> q[i] != s
  {
    forall i | 1 <= i < |q|
      ensures q[i] != s
    {
      assert (q[i - 1], q[i]) in g + {(s, start)};
    }
  }

  lemma CycleAvoids(g: Arcs, s: Key, start: Key, q: seq<Key>)
    requires (forall a, b :: (a, b) in g ==> b != s) && s != start && ClosedWalk(g + {(s, start)}, q)
    ensures ClosedWalk(g, q)
  {
    OnlyNewArc(g, s, start, q);
    forall i | 0 <= i < |q| - 1
      ensures (q[i], q[i + 1]) in g
    {
      assert (q[i], q[i + 1]) in g + {(s, start)};
    }
  }

  lemma StillAcyclic(g: Arcs, s: Key, start: Key)
    requires Acyclic(g) && (forall a, b :: (a, b) in g ==> b != s) && s != start
    ensures Acyclic(g + {(s, start)})
  {
    forall q: seq<Key> | IsPath(g + {(s, start)}, q)
      ensures !ClosedWalk(g + {(s, start)}, q)
    {
      if ClosedWalk(g + {(s, start)}, q) {
        CycleAvoids(g, s, start, q);
      }
    }
  }

  /** The migrated plan has no neutral cycle either, and reaches only blocks it holds. */
  lemma MigratedReach(p: Plan, p': Plan, s: Key, at: nat)
    requires MigratedPlan(p, p', s, at) && Acyclic(NeutralArcs(p.edges)) && forall k :: k in p.nodes ==> k in p.order
    ensures Acyclic(NeutralArcs(p'.edges)) && NeutralReach(p') <= Elements(p'.order)
  {
    MigratedArcs(p, p', s, at);
    forall a, b | (a, b) in NeutralArcs(p.edges)
      ensures a in p.nodes && b in p.nodes
    {
      SourceIsOld(p, a, b);
    }
    StillAcyclic(NeutralArcs(p.edges), s, p.start);
    InsertedMembers(p.order, s, at);
    forall x | x in NeutralReach(p')
      ensures x in Elements(p'.order)
    {
      var q :| PathFromTo(NeutralArcs(p'.edges), q, s, x);
      ClosedPath(NeutralArcs(p'.edges), Elements(p'.order), q);
    }
  }

  lemma SettingHolds(c: Chain, s: Key, at: nat, p: Plan, p': Plan)
    requires Accepts(c) && !HasKey(c, s) && at <= |c.nodes| && forall x :: x in c.nodes ==> !x.kind.StartKind?
    requires WellFormed(c) && PlanOf(c) == Some(p) && PlanOf(Migrate(c, s, Entry(c), at)) == Some(p')
    requires WalkCovers(p) && WalkInPlanOrder(p)
    ensures Setting(p, p', s, at)
  {
    MigrationPlans(c, s, at);
    AcceptedReach(c, p);
    PlanOfWellFormed(c);
    MigratedNodes(c, s, at);
    PlanIndex(Migrate(c, s, Entry(c), at));
    PlanFields(Migrate(c, s, Entry(c), at));
    PlanIndex(c);
    MigratedReach(p, p', s, at);
  }
}
