/** Keyset pagination of the runtime-control bootstrap: every durable agent is projected in
    pages of bounded size while other writers may still insert agents. */
module Bootstrap {
  import opened Text
  import opened Outcome

  predicate Beyond(after: Option<string>, id: string)
  {
    after.None? || Less(after.value, id)
  }

  function Remaining(table: set<string>, after: Option<string>): set<string>
  {
    set id | id in table && Beyond(after, id)
  }

  /** SELECT id FROM agents WHERE id > after ORDER BY id LIMIT batch. */
  function Page(table: set<string>, after: Option<string>, batch: nat): seq<string>
  {
    var ids := SortedKeys(Remaining(table, after));
    if |ids| <= batch then ids else ids[..batch]
  }

  // A page is increasing, lies beyond the cursor, and leaves out nothing at or below its last id.
  lemma PageIsNext(table: set<string>, after: Option<string>, batch: nat)
    ensures var page := Page(table, after, batch);
      && StrictlyIncreasing(page) && |page| <= batch
      && (forall id :: id in page ==> id in table && Beyond(after, id))
      && (page != [] ==> forall id :: id in table && Beyond(after, id) && !Less(page[|page| - 1], id) ==> id in page)
      && (page == [] && batch > 0 ==> forall id :: id in table ==> !Beyond(after, id))
  {
    var ids, page := SortedKeys(Remaining(table, after)), Page(table, after, batch);
    SortedKeysIncrease(Remaining(table, after));
    assert forall id :: id in ids <==> id in table && Beyond(after, id);
    assert forall id :: id in page ==> id in ids;
    assert page == [] && batch > 0 ==> ids == [];
    forall id | page != [] && id in table && Beyond(after, id) && !Less(page[|page| - 1], id) ensures id in page {
      assert id in ids;
      var i :| 0 <= i < |ids| && ids[i] == id;
      assert page[|page| - 1] == ids[|page| - 1];
      assert i < |page|;
    }
  }

  // ---- What has been projected so far ----

  /** Everything projected is in order and at or below the cursor, and came from some snapshot;
      every agent in each of the first n snapshots at or below the cursor has been projected. */
  ghost predicate Progress(tables: nat -> set<string>, n: nat, done: seq<string>, after: Option<string>)
  {
    && StrictlyIncreasing(done)
    && (after.None? <==> done == [])
    && (done != [] ==> after == Some(done[|done| - 1]))
    && (forall id :: id in done ==> exists k :: 0 <= k < n && id in tables(k))
    && (forall id :: (forall k :: 0 <= k < n ==> id in tables(k)) && !Beyond(after, id) ==> id in done)
  }

  lemma AppendIncreases(a: seq<string>, b: seq<string>)
    requires StrictlyIncreasing(a) && StrictlyIncreasing(b)
    requires a != [] ==> forall id :: id in b ==> Less(a[|a| - 1], id)
    ensures StrictlyIncreasing(a + b)
  {
    forall i, j | 0 <= i < j < |a + b| ensures Less((a + b)[i], (a + b)[j]) {
      if i < |a| <= j {
        assert b[j - |a|] in b;
        if i < |a| - 1 { LessTransitive(a[i], a[|a| - 1], b[j - |a|]); }
      }
    }
  }

  lemma PageProgress(tables: nat -> set<string>, n: nat, done: seq<string>, after: Option<string>, batch: nat)
    requires Progress(tables, n, done, after) && Page(tables(n), after, batch) != []
    ensures var page := Page(tables(n), after, batch);
      Progress(tables, n + 1, done + page, Some(page[|page| - 1]))
  {
    var page := Page(tables(n), after, batch);
    PageIsNext(tables(n), after, batch);
    AppendIncreases(done, page);
    forall id | (forall k :: 0 <= k < n + 1 ==> id in tables(k)) && !Beyond(Some(page[|page| - 1]), id)
      ensures id in done + page
    {
      assert id in tables(n);
      assert Beyond(after, id) ==> id in page;
    }
    forall id | id in done + page ensures exists k :: 0 <= k < n + 1 && id in tables(k) {
      if id in page { assert id in tables(n); }
    }
  }

  lemma CursorAdvances(universe: set<string>, after: Option<string>, last: string)
    requires last in universe && Beyond(after, last)
    ensures |Remaining(universe, Some(last))| < |Remaining(universe, after)|
  {
    var small, large := Remaining(universe, Some(last)), Remaining(universe, after);
    LessIrreflexive(last);
    forall id | id in small ensures id in large {
      if after.Some? { LessTransitive(after.value, last, id); }
    }
    assert last in large - small;
    SubsetShrinks(small, large, last);
  }

  lemma SubsetShrinks(small: set<string>, large: set<string>, x: string)
    requires small <= large && x in large && x !in small
    ensures |small| < |large|
  {
    assert |large - small| > 0;
    assert |large| == |small| + |large - small|;
  }

  /** The store the snapshots are written to. */
  class Projection {
    var written: seq<string>

    constructor ()
      ensures written == []
    {
      written := [];
    }

    /** gate.state_for: reads the durable state and projects it, or fails. */
    method StateFor(id: string, readable: bool) returns (ok: bool)
      modifies this
      ensures ok == readable
      ensures written == if readable then old(written) + [id] else old(written)
    {
      if readable { written := written + [id]; }
      return readable;
    }
  }

  /** Projects one page in order, stopping at the first agent the gate cannot answer for. */
  method ProjectPage(ids: seq<string>, readable: string -> bool, projection: Projection) returns (count: nat)
    modifies projection
    ensures count <= |ids| && projection.written == old(projection.written) + ids[..count]
    ensures forall id :: id in ids[..count] ==> readable(id)
    ensures count < |ids| ==> !readable(ids[count])
  {
    count := 0;
    while count < |ids|
      invariant count <= |ids| && projection.written == old(projection.written) + ids[..count]
      invariant forall id :: id in ids[..count] ==> readable(id)
    {
      var ok := projection.StateFor(ids[count], readable(ids[count]));
      if !ok { return; }
      count := count + 1;
    }
  }

  ghost predicate AllReadable(ids: seq<string>, readable: string -> bool)
  {
    forall id :: id in ids ==> readable(id)
  }

  ghost predicate DrawnFrom(tables: nat -> set<string>, universe: set<string>)
  {
    forall k: nat :: tables(k) <= universe
  }

  /** The gate answers for every agent. */
  ghost predicate AllAnswered(universe: set<string>, readable: string -> bool)
  {
    forall id :: id in universe ==> readable(id)
  }

  /** Every id was in one of the first n snapshots. */
  ghost predicate Seen(tables: nat -> set<string>, n: nat, ids: seq<string>)
  {
    forall id :: id in ids ==> exists k :: 0 <= k < n && id in tables(k)
  }

  /** Every agent present in all of the first n snapshots is among the ids. */
  ghost predicate Complete(tables: nat -> set<string>, n: nat, ids: seq<string>)
  {
    forall id :: (forall k :: 0 <= k < n ==> id in tables(k)) ==> id in ids
  }

  /** tables(k) is the agent table when the k-th page is read, drawn from a finite universe of
      ids; readable says for which agents the gate answers.  On success every agent that was
      present at every page read has been projected exactly once, in id order, and nothing that
      was never present; the count is the number of projections. */
  method BootstrapRuntimeControl(batchSize: int, enabled: bool, reachable: bool, tables: nat -> set<string>,
                                 ghost universe: set<string>, readable: string -> bool, projection: Projection)
    returns (r: Result<nat>, ghost pages: nat)
    requires projection.written == []
    requires DrawnFrom(tables, universe)
    modifies projection
    ensures !(1 <= batchSize <= 1000 && enabled && reachable) ==> r.Err? && projection.written == []
    ensures StrictlyIncreasing(projection.written) && AllReadable(projection.written, readable)
    ensures Seen(tables, pages, projection.written)
    ensures r.Ok? ==> r.value == |projection.written| && pages > 0 && Complete(tables, pages, projection.written)
    ensures 1 <= batchSize <= 1000 && enabled && reachable && AllAnswered(universe, readable) ==> r.Ok?
  {
    pages := 0;
    if !(1 <= batchSize <= 1000) { return Err("batch_size must be between 1 and 1000"), 0; }
    if !enabled { return Err("RUNTIME_CONTROL_ENABLED must be true"), 0; }
    if !reachable { return Err("projection is unreachable"), 0; }
    var after: Option<string>, projected, n := None, 0, 0;
    while true
      invariant pages == n && projected == |projection.written|
      invariant Progress(tables, n, projection.written, after)
      invariant AllReadable(projection.written, readable)
      decreases |Remaining(universe, after)|
    {
      var ids := Page(tables(n), after, batchSize);
      ghost var done := projection.written;
      pages := n + 1;
      if ids == [] {
        EmptyPageEnds(tables, n, done, after, batchSize);
        return Ok(projected), pages;
      }
      var count := ProjectPage(ids, readable, projection);
      if count < |ids| {
        PartialPage(tables, n, done, after, batchSize, count);
        PageIn(tables(n), after, batchSize, ids[count]);
        return Err("state is unavailable"), pages;
      }
      assert ids[..|ids|] == ids;
      PageProgress(tables, n, done, after, batchSize);
      PageAdvances(tables(n), universe, after, batchSize);
      projected := projected + |ids|;
      after := Some(ids[|ids| - 1]);
      n := n + 1;
    }
  }

  lemma PageIn(table: set<string>, after: Option<string>, batch: nat, id: string)
    requires id in Page(table, after, batch)
    ensures id in table && Beyond(after, id)
  {
    PageIsNext(table, after, batch);
  }

  lemma PageAdvances(table: set<string>, universe: set<string>, after: Option<string>, batch: nat)
    requires table <= universe && Page(table, after, batch) != []
    ensures var ids := Page(table, after, batch);
      |Remaining(universe, Some(ids[|ids| - 1]))| < |Remaining(universe, after)|
  {
    var ids := Page(table, after, batch);
    PageIn(table, after, batch, ids[|ids| - 1]);
    CursorAdvances(universe, after, ids[|ids| - 1]);
  }

  lemma EmptyPageEnds(tables: nat -> set<string>, n: nat, done: seq<string>, after: Option<string>, batch: nat)
    requires Progress(tables, n, done, after) && batch > 0 && Page(tables(n), after, batch) == []
    ensures Complete(tables, n + 1, done) && Seen(tables, n + 1, done)
  {
    PageIsNext(tables(n), after, batch);
    forall id | forall k :: 0 <= k < n + 1 ==> id in tables(k) ensures id in done {
      assert id in tables(n);
    }
  }

  lemma PartialPage(tables: nat -> set<string>, n: nat, done: seq<string>, after: Option<string>, batch: nat, i: nat)
    requires Progress(tables, n, done, after) && i <= |Page(tables(n), after, batch)|
    ensures var some := done + Page(tables(n), after, batch)[..i]; StrictlyIncreasing(some) && Seen(tables, n + 1, some)
  {
    var page := Page(tables(n), after, batch);
    var part := page[..i];
    PageIsNext(tables(n), after, batch);
    assert forall id :: id in part ==> id in page;
    AppendIncreases(done, part);
    forall id | id in done + part ensures exists k :: 0 <= k < n + 1 && id in tables(k) {
      if id in part { assert id in tables(n); }
    }
  }

  /** Over a table that does not change, what a successful bootstrap projects is exactly the
      sorted ids: each agent once. */
  lemma FixedTableIsCovered(table: set<string>, pages: nat, done: seq<string>)
    requires pages > 0 && StrictlyIncreasing(done)
    requires Seen(_ => table, pages, done) && Complete(_ => table, pages, done)
    ensures done == SortedKeys(table)
  {
    var tables: nat -> set<string> := _ => table;
    forall id ensures id in done <==> id in table {
      if id in done { var k :| 0 <= k < pages && id in tables(k); }
    }
    SortedKeysIncrease(table);
    IncreasingUnique(done, SortedKeys(table));
  }
}
