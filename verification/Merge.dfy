/** The deduplicating merger: incremental state, and the one-shot reading of the whole
    input that every sequence of additions amounts to. Link normalisation is a parameter:
    the results hold for any key function. */
module Merge {
  datatype Row = Row(link: string, title: string, snippet: string, sources: seq<string>)
  datatype Merged = Merged(rows: seq<Row>, byKey: map<string, nat>, collected: nat)
  /** One row of one block, as fed to the merger. */
  datatype Feed = Feed(provider: string, row: Row)
  type KeyOf = string -> string

  const NOTHING := Merged([], map[], 0)

  ghost predicate Indexed(m: Merged) {
    forall k :: k in m.byKey ==> m.byKey[k] < |m.rows|
  }

  // --- Step by step ------------------------------------------------------------

  function AddRow(norm: KeyOf, m: Merged, provider: string, row: Row): (r: Merged)
    ensures Indexed(m) ==> Indexed(r)
  {
    var key := norm(row.link);
    if key in m.byKey && m.byKey[key] < |m.rows| then
      var at := m.byKey[key];
      if provider in m.rows[at].sources then m.(collected := m.collected + 1)
      else m.(rows := m.rows[at := m.rows[at].(sources := m.rows[at].sources + [provider])],
         collected := m.collected + 1)
    else
      Merged(m.rows + [row.(sources := [provider])], m.byKey[key := |m.rows|], m.collected + 1)
  }

  function AddRows(norm: KeyOf, m: Merged, provider: string, rows: seq<Row>): (r: Merged)
    ensures Indexed(m) ==> Indexed(r)
  {
    if rows == [] then m
    else AddRow(norm, AddRows(norm, m, provider, rows[..|rows| - 1]), provider, rows[|rows| - 1])
  }

  function RowsUpTo(m: Merged, count: int): (r: seq<Row>)
    ensures r <= m.rows && |r| == if 0 < count < |m.rows| then count else |m.rows|
  {
    if count > 0 && |m.rows| > count then m.rows[..count] else m.rows
  }

  /** Items of a list not met before, in order. */
  function AddNew(seen: seq<string>, items: seq<string>): seq<string>
    decreases |items|
  {
    if items == [] then seen
    else AddNew(if items[0] in seen then seen else seen + [items[0]], items[1..])
  }

  ghost predicate NoRepeat(s: seq<string>) {
    forall i, j :: 0 <= i < j < |s| ==> s[i] != s[j]
  }

  function Providers(rows: seq<Row>): seq<string> {
    if rows == [] then [] else AddNew(Providers(rows[..|rows| - 1]), rows[|rows| - 1].sources)
  }

  lemma {:induction false} AddNewExact(seen: seq<string>, items: seq<string>)
    ensures forall x :: x in AddNew(seen, items) <==> x in seen || x in items
    ensures NoRepeat(seen) ==> NoRepeat(AddNew(seen, items))
    decreases |items|
  {
    if items != [] {
      AddNewExact(if items[0] in seen then seen else seen + [items[0]], items[1..]);
    }
  }

  /** The provider list has every source of every row, each once. */
  lemma {:induction false} ProvidersExact(rows: seq<Row>)
    ensures NoRepeat(Providers(rows))
    ensures forall x :: x in Providers(rows) <==> exists i :: 0 <= i < |rows| && x in rows[i].sources
  {
    if rows != [] {
      var front := rows[..|rows| - 1];
      ProvidersExact(front);
      AddNewExact(Providers(front), rows[|rows| - 1].sources);
      assert forall i :: 0 <= i < |front| ==> front[i] == rows[i];
    }
  }

  class Merger {
    const norm: KeyOf
    var rows: seq<Row>
    var byKey: map<string, nat>
    var collected: nat

    ghost function View(): Merged
      reads this
    {
      Merged(rows, byKey, collected)
    }

    function Snapshot(): (m: Merged)
      reads this
      ensures m == View()
    {
      Merged(rows, byKey, collected)
    }

    constructor (norm: KeyOf)
      ensures View() == NOTHING && this.norm == norm
    {
      this.norm, rows, byKey, collected := norm, [], map[], 0;
    }

    /** Folds a block's rows in; the flag tells whether this changed any row. */
    method Add(provider: string, added: seq<Row>) returns (changed: bool)
      requires Indexed(View())
      modifies this
      ensures View() == AddRows(norm, old(View()), provider, added) && Indexed(View())
      ensures changed <==> rows != old(rows)
    {
      changed := false;
      for i := 0 to |added|
        invariant View() == AddRows(norm, old(View()), provider, added[..i]) && Indexed(View())
        invariant |rows| >= |old(rows)|
        invariant forall j :: 0 <= j < |old(rows)| ==> |rows[j].sources| >= |old(rows)[j].sources|
        invariant changed ==>
          |rows| > |old(rows)| || exists j :: 0 <= j < |old(rows)| && |rows[j].sources| > |old(rows)[j].sources|
        invariant !changed ==> rows == old(rows)
      {
        assert added[..i + 1][..i] == added[..i];
        var row := added[i];
        collected := collected + 1;
        var key := norm(row.link);
        if key in byKey {
          var at := byKey[key];
          if provider !in rows[at].sources {
            rows := rows[at := rows[at].(sources := rows[at].sources + [provider])];
            changed := true;
          }
        } else {
          byKey := byKey[key := |rows|];
          rows := rows + [row.(sources := [provider])];
          changed := true;
        }
      }
      assert added[..|added|] == added;
    }

    /** The distinct contributing providers, by a scan over all source lists. */
    method Contributing() returns (names: seq<string>)
      ensures names == Providers(rows)
    {
      names := [];
      for i := 0 to |rows|
        invariant names == Providers(rows[..i])
      {
        assert rows[..i + 1][..i] == rows[..i];
        ghost var before := names;
        var sources := rows[i].sources;
        for j := 0 to |sources|
          invariant AddNew(names, sources[j..]) == AddNew(before, sources)
        {
          if sources[j] !in names {
            names := names + [sources[j]];
          }
          assert sources[j..][1..] == sources[j + 1..];
        }
      }
      assert rows[..|rows|] == rows;
    }
  }

  // --- All at once ---------------------------------------------------------------

  function MergeAll(norm: KeyOf, feed: seq<Feed>): (r: Merged)
    ensures Indexed(r)
  {
    if feed == [] then NOTHING
    else
      var last := feed[|feed| - 1];
      AddRow(norm, MergeAll(norm, feed[..|feed| - 1]), last.provider, last.row)
  }

  predicate SeenKey(norm: KeyOf, feed: seq<Feed>, k: string) {
    exists i :: 0 <= i < |feed| && norm(feed[i].row.link) == k
  }

  /** Positions of the rows whose key no earlier row has. */
  function Firsts(norm: KeyOf, feed: seq<Feed>): (r: seq<nat>)
    ensures forall j :: 0 <= j < |r| ==> r[j] < |feed|
  {
    if feed == [] then []
    else
      var front := feed[..|feed| - 1];
      if SeenKey(norm, front, norm(feed[|feed| - 1].row.link)) then Firsts(norm, front)
      else Firsts(norm, front) + [|feed| - 1]
  }

  /** The providers that sent a row with key k, each once, in order of first contribution. */
  function Contributors(norm: KeyOf, feed: seq<Feed>, k: string): seq<string> {
    if feed == [] then []
    else
      var front, last := feed[..|feed| - 1], feed[|feed| - 1];
      var before := Contributors(norm, front, k);
      if norm(last.row.link) == k && last.provider !in before then before + [last.provider] else before
  }

  lemma {:induction false} FirstsExact(norm: KeyOf, feed: seq<Feed>)
    ensures forall i, j :: 0 <= i < j < |Firsts(norm, feed)| ==> Firsts(norm, feed)[i] < Firsts(norm, feed)[j]
    ensures forall i: nat :: i in Firsts(norm, feed) <==>
      i < |feed| && !SeenKey(norm, feed[..i], norm(feed[i].row.link))
  {
    if feed != [] {
      var n := |feed| - 1;
      var front := feed[..n];
      FirstsExact(norm, front);
      forall i: nat
        ensures i in Firsts(norm, feed) <==> i < |feed| && !SeenKey(norm, feed[..i], norm(feed[i].row.link))
      {
        if i < n {
          assert front[..i] == feed[..i] && front[i] == feed[i];
        }
      }
    }
  }

  lemma {:induction false} ContributorsExact(norm: KeyOf, feed: seq<Feed>, k: string)
    ensures NoRepeat(Contributors(norm, feed, k))
    ensures forall p :: p in Contributors(norm, feed, k) <==>
      exists i :: 0 <= i < |feed| && norm(feed[i].row.link) == k && feed[i].provider == p
  {
    if feed != [] {
      var n := |feed| - 1;
      var front := feed[..n];
      ContributorsExact(norm, front, k);
      forall i | 0 <= i < n
        ensures front[i] == feed[i]
      {
      }
    }
  }

  // --- In which order names are listed ------------------------------------------------------------

  /** x is listed before y is. */
  predicate Earlier(all: seq<string>, x: string, y: string) {
    exists a :: 0 <= a < |all| && all[a] == x && y !in all[..a + 1]
  }

  /** The list has each name once, in the order in which they first come up. */
  ghost predicate ByFirstMention(names: seq<string>, all: seq<string>) {
    && (forall x :: x in names <==> x in all)
    && forall i, j :: 0 <= i < j < |names| ==> Earlier(all, names[i], names[j])
  }

  lemma StaysEarlier(all: seq<string>, more: string, x: string, y: string)
    requires Earlier(all, x, y)
    ensures Earlier(all + [more], x, y)
  {
    var a :| 0 <= a < |all| && all[a] == x && y !in all[..a + 1];
    assert (all + [more])[..a + 1] == all[..a + 1] && (all + [more])[a] == x;
  }

  lemma NewIsLater(all: seq<string>, x: string, y: string)
    requires x in all && y !in all
    ensures Earlier(all + [y], x, y)
  {
    var a :| 0 <= a < |all| && all[a] == x;
    assert (all + [y])[..a + 1] == all[..a + 1] && (all + [y])[a] == x;
  }

  lemma MentionNext(names: seq<string>, all: seq<string>, x: string)
    requires ByFirstMention(names, all)
    ensures ByFirstMention(if x in names then names else names + [x], all + [x])
  {
    var longer := if x in names then names else names + [x];
    forall i, j | 0 <= i < j < |longer|
      ensures Earlier(all + [x], longer[i], longer[j])
    {
      if j < |names| {
        StaysEarlier(all, x, names[i], names[j]);
      } else {
        NewIsLater(all, names[i], x);
      }
    }
  }

  /** Who sent rows with key k, over and over. */
  function Senders(norm: KeyOf, feed: seq<Feed>, k: string): seq<string> {
    if feed == [] then []
    else
      var front, last := feed[..|feed| - 1], feed[|feed| - 1];
      Senders(norm, front, k) + if norm(last.row.link) == k then [last.provider] else []
  }

  /** The sources of a row are listed in the order in which they first sent it. */
  lemma {:induction false} ContributorsInOrder(norm: KeyOf, feed: seq<Feed>, k: string)
    ensures ByFirstMention(Contributors(norm, feed, k), Senders(norm, feed, k))
  {
    if feed != [] {
      var front, last := feed[..|feed| - 1], feed[|feed| - 1];
      ContributorsInOrder(norm, front, k);
      MentionNext(Contributors(norm, front, k), Senders(norm, front, k), last.provider);
      assert Senders(norm, front, k) + [] == Senders(norm, front, k);
    }
  }

  function Listed(rows: seq<Row>): seq<string> {
    if rows == [] then [] else Listed(rows[..|rows| - 1]) + rows[|rows| - 1].sources
  }

  lemma MovedOver(all: seq<string>, items: seq<string>)
    requires items != []
    ensures all + [items[0]] + items[1..] == all + items
  {
  }

  lemma {:induction false} AddNewInOrder(seen: seq<string>, items: seq<string>, all: seq<string>)
    requires ByFirstMention(seen, all)
    ensures ByFirstMention(AddNew(seen, items), all + items)
    decreases |items|
  {
    if items == [] {
      assert all + items == all;
    } else {
      var x, rest := items[0], items[1..];
      var seen' := if x in seen then seen else seen + [x];
      MentionNext(seen, all, x);
      AddNewInOrder(seen', rest, all + [x]);
      MovedOver(all, items);
    }
  }

  /** The providers of a result are named in the order in which its rows mention them. */
  lemma {:induction false} ProvidersInOrder(rows: seq<Row>)
    ensures ByFirstMention(Providers(rows), Listed(rows))
  {
    if rows != [] {
      var front := rows[..|rows| - 1];
      ProvidersInOrder(front);
      AddNewInOrder(Providers(front), rows[|rows| - 1].sources, Listed(front));
    }
  }

  /** Row j of the result is the first row with its key, and names its contributors. */
  ghost predicate RowsDigest(norm: KeyOf, feed: seq<Feed>, m: Merged) {
    var firsts := Firsts(norm, feed);
    && |m.rows| == |firsts|
    && forall j :: 0 <= j < |firsts| ==>
         m.rows[j] == feed[firsts[j]].row.(sources := Contributors(norm, feed, norm(feed[firsts[j]].row.link)))
  }

  /** The index holds exactly the keys met, and sends each to the row that has it. */
  ghost predicate KeysDigest(norm: KeyOf, feed: seq<Feed>, m: Merged) {
    && (forall k :: k in m.byKey <==> SeenKey(norm, feed, k))
    && (forall k :: k in m.byKey ==> m.byKey[k] < |m.rows| && norm(m.rows[m.byKey[k]].link) == k)
    && (forall j :: 0 <= j < |m.rows| ==> norm(m.rows[j].link) in m.byKey && m.byKey[norm(m.rows[j].link)] == j)
  }

  ghost predicate Digest(norm: KeyOf, feed: seq<Feed>, m: Merged) {
    m.collected == |feed| && RowsDigest(norm, feed, m) && KeysDigest(norm, feed, m)
  }

  lemma NoContributorsUnseen(norm: KeyOf, feed: seq<Feed>, k: string)
    ensures Contributors(norm, feed, k) == [] <==> !SeenKey(norm, feed, k)
  {
    ContributorsExact(norm, feed, k);
    if i :| 0 <= i < |feed| && norm(feed[i].row.link) == k {
      assert feed[i].provider in Contributors(norm, feed, k);
    }
    if Contributors(norm, feed, k) != [] {
      assert Contributors(norm, feed, k)[0] in Contributors(norm, feed, k);
    }
  }

  lemma SeenKeyStep(norm: KeyOf, front: seq<Feed>, last: Feed, k: string)
    ensures SeenKey(norm, front + [last], k) <==> SeenKey(norm, front, k) || k == norm(last.row.link)
  {
    var feed := front + [last];
    assert feed[|front|] == last;
    if SeenKey(norm, front, k) {
      var i :| 0 <= i < |front| && norm(front[i].row.link) == k;
      assert feed[i] == front[i];
    }
  }

  lemma KeysStep(norm: KeyOf, front: seq<Feed>, last: Feed, m: Merged)
    requires KeysDigest(norm, front, m)
    ensures KeysDigest(norm, front + [last], AddRow(norm, m, last.provider, last.row))
  {
    var r := AddRow(norm, m, last.provider, last.row);
    forall k
      ensures k in r.byKey <==> SeenKey(norm, front + [last], k)
    {
      SeenKeyStep(norm, front, last, k);
    }
    forall j | 0 <= j < |m.rows|
      ensures r.rows[j].link == m.rows[j].link
    {
    }
  }

  lemma RowsStep(norm: KeyOf, front: seq<Feed>, last: Feed, m: Merged)
    requires RowsDigest(norm, front, m) && KeysDigest(norm, front, m)
    ensures RowsDigest(norm, front + [last], AddRow(norm, m, last.provider, last.row))
  {
    var feed, r, key := front + [last], AddRow(norm, m, last.provider, last.row), norm(last.row.link);
    assert feed[..|front|] == front && feed[|front|] == last;
    NoContributorsUnseen(norm, front, key);
    var firsts := Firsts(norm, front);
    forall j | 0 <= j < |firsts|
      ensures r.rows[j] == feed[firsts[j]].row.(sources := Contributors(norm, feed, norm(feed[firsts[j]].row.link)))
    {
      assert feed[firsts[j]] == front[firsts[j]];
      assert m.rows[j].link == front[firsts[j]].row.link;
      assert m.byKey[norm(m.rows[j].link)] == j;
    }
  }

  lemma DigestStep(norm: KeyOf, front: seq<Feed>, last: Feed, m: Merged)
    requires Digest(norm, front, m)
    ensures Digest(norm, front + [last], AddRow(norm, m, last.provider, last.row))
  {
    KeysStep(norm, front, last, m);
    RowsStep(norm, front, last, m);
  }

  /** The merger refines the one-shot reading: after any input the rows are the first
      occurrences of distinct keys, in order, with duplicate-free contributor lists, and
      the key index is the exact inverse. */
  lemma {:induction false} MergeIsDigest(norm: KeyOf, feed: seq<Feed>)
    ensures Digest(norm, feed, MergeAll(norm, feed))
  {
    if feed != [] {
      var front, last := feed[..|feed| - 1], feed[|feed| - 1];
      MergeIsDigest(norm, front);
      DigestStep(norm, front, last, MergeAll(norm, front));
      assert front + [last] == feed;
    }
  }

  /** The feed one block contributes. */
  function Tagged(provider: string, rows: seq<Row>): seq<Feed> {
    if rows == [] then [] else Tagged(provider, rows[..|rows| - 1]) + [Feed(provider, rows[|rows| - 1])]
  }

  /** Adding a block's rows is feeding them one by one. */
  lemma {:induction false} AddRowsIsFeed(norm: KeyOf, feed: seq<Feed>, provider: string, rows: seq<Row>)
    ensures AddRows(norm, MergeAll(norm, feed), provider, rows) == MergeAll(norm, feed + Tagged(provider, rows))
  {
    if rows == [] {
      assert feed + Tagged(provider, rows) == feed;
    } else {
      var front, last := rows[..|rows| - 1], rows[|rows| - 1];
      AddRowsIsFeed(norm, feed, provider, front);
      var all := feed + Tagged(provider, rows);
      assert all == (feed + Tagged(provider, front)) + [Feed(provider, last)];
      assert all[..|all| - 1] == feed + Tagged(provider, front);
    }
  }

  /** Collected rows split into unique and dropped; the count cap trims a prefix only. */
  lemma Accounting(norm: KeyOf, feed: seq<Feed>, count: int)
    ensures var m := MergeAll(norm, feed);
            && m.collected == |feed| && |m.rows| <= m.collected
            && |RowsUpTo(m, count)| + (m.collected - |m.rows|) <= m.collected
            && (m.rows == [] <==> feed == [])
  {
    MergeIsDigest(norm, feed);
    FirstsExact(norm, feed);
    FirstsBounded(Firsts(norm, feed), |feed|);
    if feed != [] {
      assert !SeenKey(norm, feed[..0], norm(feed[0].row.link));
      assert 0 in Firsts(norm, feed);
    }
  }

  lemma {:induction false} FirstsBounded(s: seq<nat>, n: nat)
    requires forall i :: 0 <= i < |s| ==> s[i] < n
    requires forall i, j :: 0 <= i < j < |s| ==> s[i] < s[j]
    ensures |s| <= n
  {
    if s != [] {
      FirstsBounded(s[..|s| - 1], s[|s| - 1]);
    }
  }

  /** Every provider that sent a row is named, and no other. */
  lemma ProvidersAreSenders(norm: KeyOf, feed: seq<Feed>, p: string)
    ensures p in Providers(MergeAll(norm, feed).rows) <==> exists i :: 0 <= i < |feed| && feed[i].provider == p
  {
    MergeIsDigest(norm, feed);
    var m := MergeAll(norm, feed);
    ProvidersExact(m.rows);
    var firsts := Firsts(norm, feed);
    if i :| 0 <= i < |feed| && feed[i].provider == p {
      var k := norm(feed[i].row.link);
      assert SeenKey(norm, feed, k);
      var j := m.byKey[k];
      ContributorsExact(norm, feed, k);
      assert p in m.rows[j].sources;
    }
    if j :| 0 <= j < |m.rows| && p in m.rows[j].sources {
      ContributorsExact(norm, feed, norm(feed[firsts[j]].row.link));
    }
  }
}
