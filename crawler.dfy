/** The legacy crawler: its `ideas` table with `UNIQUE(title, source)`, the
    review status updates, the pending queue, the score evaluation and the
    crawl run's counters. */
module Crawler {
  import opened Sorting

  datatype Status = Pending | Approved | Rejected

  /** A crawled idea before it is stored (`BusinessIdea`; its status is
      always the table default). */
  datatype BusinessIdea = BusinessIdea(
    title: string,
    description: string,
    source: string,
    category: string,
    marketSize: int,
    competition: int,
    execution: int,
    timing: int,
    country: string)

  /** The constructor's default country. */
  function NewBusinessIdea(title: string, description: string, source: string, category: string,
                           marketSize: int, competition: int, execution: int, timing: int): (idea: BusinessIdea)
    ensures idea.country == "KR" && idea.title == title && idea.source == source
  {
    BusinessIdea(title, description, source, category, marketSize, competition, execution, timing, "KR")
  }

  datatype Row = Row(id: nat, idea: BusinessIdea, createdAt: real, status: Status)

  // ---------------------------------------------------------------------------
  // Evaluation

  /** The four `random.randint` draws, each within its inclusive range. */
  datatype Draws = Draws(marketSize: int, competition: int, execution: int, timing: int)

  predicate DrawsInRange(d: Draws) {
    && 4 <= d.marketSize <= 9
    && 3 <= d.competition <= 8
    && 3 <= d.execution <= 8
    && 5 <= d.timing <= 9
  }

  datatype Evaluation = Evaluation(marketSize: int, competition: int, execution: int, timing: int)

  function Min(a: int, b: int): int {
    if a <= b then a else b
  }

  /** `evaluate_idea`: the draws, with timing raised for "AI/SaaS" and
      "HealthTech" and market size raised for "FinTech", never above 9. */
  function EvaluateIdea(title: string, description: string, category: string, d: Draws): (e: Evaluation)
    requires DrawsInRange(d)
    ensures 4 <= e.marketSize <= 9 && 3 <= e.competition <= 8 && 3 <= e.execution <= 8 && 5 <= e.timing <= 9
    ensures e.competition == d.competition && e.execution == d.execution
    ensures e.marketSize == d.marketSize || (category == "FinTech" && e.marketSize == d.marketSize + 1)
    ensures e.timing == d.timing || ((category == "AI/SaaS" || category == "HealthTech") && e.timing == d.timing + 1)
    ensures category == "FinTech" ==> e.marketSize == Min(9, d.marketSize + 1) && e.timing == d.timing
    ensures category == "AI/SaaS" || category == "HealthTech" ==> e.timing == Min(9, d.timing + 1) && e.marketSize == d.marketSize
  {
    var e := Evaluation(d.marketSize, d.competition, d.execution, d.timing);
    if category == "AI/SaaS" then e.(timing := Min(9, e.timing + 1))
    else if category == "FinTech" then e.(marketSize := Min(9, e.marketSize + 1))
    else if category == "HealthTech" then e.(timing := Min(9, e.timing + 1))
    else e
  }

  // ---------------------------------------------------------------------------
  // The table

  predicate SameKey(r: Row, idea: BusinessIdea) {
    r.idea.title == idea.title && r.idea.source == idea.source
  }

  /** The row an accepted insert adds. */
  function NewRow(idea: BusinessIdea, id: nat, now: real): (r: Row)
    ensures r.status == Pending && r.idea == idea && r.id == id && r.createdAt == now
  {
    Row(id, idea, now, Pending)
  }

  /** The table after setting the status of the rows with the given id. */
  function WithStatus(rows: seq<Row>, id: int, s: Status): seq<Row> {
    seq(|rows|, i requires 0 <= i < |rows| => if rows[i].id == id then rows[i].(status := s) else rows[i])
  }

  /** Ids increase and stay below `nextId`; no two rows share a title and a
      source. */
  ghost predicate WellFormed(rows: seq<Row>, nextId: nat) {
    && (forall i :: 0 <= i < |rows| ==> rows[i].id < nextId)
    && (forall i, j :: 0 <= i < j < |rows| ==> rows[i].id < rows[j].id)
    && (forall i, j :: 0 <= i < j < |rows| ==> !SameKey(rows[j], rows[i].idea))
  }

  /** A status update changes the status of the row with that id and
      nothing else; it touches at most one row. */
  lemma StatusUpdateExact(rows: seq<Row>, nextId: nat, id: int, s: Status)
    requires WellFormed(rows, nextId)
    ensures WellFormed(WithStatus(rows, id, s), nextId)
    ensures forall i :: 0 <= i < |rows| && rows[i].id != id ==> WithStatus(rows, id, s)[i] == rows[i]
    ensures forall i :: 0 <= i < |rows| && rows[i].id == id ==>
      WithStatus(rows, id, s)[i] == rows[i].(status := s) &&
      (forall j :: 0 <= j < |rows| && j != i ==> rows[j].id != id)
  {
  }

  // ---------------------------------------------------------------------------
  // Saving

  /** Whether `save_idea` inserts `idea`: the store does not raise and no
      row has the same title and source. */
  predicate Inserts(rows: seq<Row>, idea: BusinessIdea, fails: bool) {
    !fails && forall i :: 0 <= i < |rows| ==> !SameKey(rows[i], idea)
  }

  /** The table and the next id after `save_idea`. */
  function SaveRows(rows: seq<Row>, nextId: nat, idea: BusinessIdea, now: real, fails: bool): (seq<Row>, nat) {
    if Inserts(rows, idea, fails) then (rows + [NewRow(idea, nextId, now)], nextId + 1) else (rows, nextId)
  }

  /** The table and the next id after saving `ideas` in order, the k-th save
      raising when `fails[k]` holds and stamping its row with `nows[k]`, the
      clock reading of that insert. */
  function SaveAll(rows: seq<Row>, nextId: nat, ideas: seq<BusinessIdea>, fails: seq<bool>, nows: seq<real>)
    : (seq<Row>, nat)
    requires |fails| == |ideas| && |nows| == |ideas|
  {
    if ideas == [] then (rows, nextId)
    else
      var n := |ideas| - 1;
      var before := SaveAll(rows, nextId, ideas[..n], fails[..n], nows[..n]);
      SaveRows(before.0, before.1, ideas[n], nows[n], fails[n])
  }

  lemma SaveAllStep(rows: seq<Row>, nextId: nat, ideas: seq<BusinessIdea>, fails: seq<bool>, nows: seq<real>, k: nat)
    requires |fails| == |ideas| && |nows| == |ideas| && k < |ideas|
    ensures var before := SaveAll(rows, nextId, ideas[..k], fails[..k], nows[..k]);
      SaveAll(rows, nextId, ideas[..k + 1], fails[..k + 1], nows[..k + 1])
        == SaveRows(before.0, before.1, ideas[k], nows[k], fails[k])
  {
    assert ideas[..k + 1][..k] == ideas[..k];
    assert fails[..k + 1][..k] == fails[..k];
    assert nows[..k + 1][..k] == nows[..k];
  }

  /** A save keeps the table well formed. */
  lemma SaveRowsWellFormed(rows: seq<Row>, nextId: nat, idea: BusinessIdea, now: real, fails: bool)
    requires WellFormed(rows, nextId)
    ensures WellFormed(SaveRows(rows, nextId, idea, now, fails).0, SaveRows(rows, nextId, idea, now, fails).1)
  {
  }

  /** Saving a list keeps the table well formed: however often a title and
      source recur among the ideas, at most one row holds them. */
  lemma {:induction false} SaveAllWellFormed(rows: seq<Row>, nextId: nat, ideas: seq<BusinessIdea>, fails: seq<bool>,
                                             nows: seq<real>)
    requires |fails| == |ideas| && |nows| == |ideas| && WellFormed(rows, nextId)
    ensures WellFormed(SaveAll(rows, nextId, ideas, fails, nows).0, SaveAll(rows, nextId, ideas, fails, nows).1)
  {
    if ideas != [] {
      var n := |ideas| - 1;
      SaveAllWellFormed(rows, nextId, ideas[..n], fails[..n], nows[..n]);
      var before := SaveAll(rows, nextId, ideas[..n], fails[..n], nows[..n]);
      SaveRowsWellFormed(before.0, before.1, ideas[n], nows[n], fails[n]);
    }
  }

  /** Saving a list only appends: at most one row per idea, each new row
      pending, holding one of the ideas whose save did not raise and stamped
      with the clock reading of that save. */
  lemma {:induction false} SaveAllAppends(rows: seq<Row>, nextId: nat, ideas: seq<BusinessIdea>, fails: seq<bool>,
                                          nows: seq<real>)
    requires |fails| == |ideas| && |nows| == |ideas|
    ensures var r := SaveAll(rows, nextId, ideas, fails, nows).0;
      |rows| <= |r| <= |rows| + |ideas| && r[..|rows|] == rows &&
      forall j :: |rows| <= j < |r| ==>
        r[j].status == Pending &&
        exists k :: 0 <= k < |ideas| && !fails[k] && r[j].idea == ideas[k] && r[j].createdAt == nows[k]
  {
    if ideas != [] {
      var n := |ideas| - 1;
      SaveAllAppends(rows, nextId, ideas[..n], fails[..n], nows[..n]);
      var before := SaveAll(rows, nextId, ideas[..n], fails[..n], nows[..n]).0;
      var r := SaveAll(rows, nextId, ideas, fails, nows).0;
      assert r[..|before|] == before;
      forall j | |rows| <= j < |r|
        ensures r[j].status == Pending &&
          exists k :: 0 <= k < |ideas| && !fails[k] && r[j].idea == ideas[k] && r[j].createdAt == nows[k]
      {
        if j < |before| {
          assert r[j] == before[j];
          var k :| 0 <= k < n && !fails[..n][k] && before[j].idea == ideas[..n][k] && before[j].createdAt == nows[..n][k];
          assert ideas[..n][k] == ideas[k] && fails[..n][k] == fails[k] && nows[..n][k] == nows[k];
        } else {
          assert r[j].idea == ideas[n] && !fails[n] && r[j].createdAt == nows[n];
        }
      }
    }
  }

  /** With the clock moving forward between saves, the rows a list of saves
      adds carry strictly increasing creation times, in table order. */
  lemma {:induction false} SaveAllIncreasing(rows: seq<Row>, nextId: nat, ideas: seq<BusinessIdea>, fails: seq<bool>,
                                             nows: seq<real>)
    requires |fails| == |ideas| && |nows| == |ideas|
    requires forall a, b :: 0 <= a < b < |nows| ==> nows[a] < nows[b]
    ensures var r := SaveAll(rows, nextId, ideas, fails, nows).0;
      forall i, j :: |rows| <= i < j < |r| ==> r[i].createdAt < r[j].createdAt
  {
    if ideas != [] {
      var n := |ideas| - 1;
      SaveAllIncreasing(rows, nextId, ideas[..n], fails[..n], nows[..n]);
      SaveAllAppends(rows, nextId, ideas[..n], fails[..n], nows[..n]);
      var before := SaveAll(rows, nextId, ideas[..n], fails[..n], nows[..n]).0;
      var r := SaveAll(rows, nextId, ideas, fails, nows).0;
      assert r[..|before|] == before;
      forall i | |rows| <= i < |before|
        ensures before[i].createdAt < nows[n]
      {
        var k :| 0 <= k < n && !fails[..n][k] && before[i].idea == ideas[..n][k] && before[i].createdAt == nows[..n][k];
        assert nows[..n][k] == nows[k];
      }
      forall i, j | |rows| <= i < j < |r|
        ensures r[i].createdAt < r[j].createdAt
      {
        assert r[i] == before[i];
        if j < |before| {
          assert r[j] == before[j];
        } else {
          assert r[j].createdAt == nows[n];
        }
      }
    }
  }

  /** After saving a list, every idea whose save did not raise has a row
      with its title and source: a new one, or the one already there. */
  lemma {:induction false} SaveAllStores(rows: seq<Row>, nextId: nat, ideas: seq<BusinessIdea>, fails: seq<bool>,
                                         nows: seq<real>)
    requires |fails| == |ideas| && |nows| == |ideas|
    ensures var r := SaveAll(rows, nextId, ideas, fails, nows).0;
      forall k :: 0 <= k < |ideas| && !fails[k] ==> exists i :: 0 <= i < |r| && SameKey(r[i], ideas[k])
  {
    if ideas != [] {
      var n := |ideas| - 1;
      SaveAllStores(rows, nextId, ideas[..n], fails[..n], nows[..n]);
      SaveAllAppends(rows, nextId, ideas, fails, nows);
      var before := SaveAll(rows, nextId, ideas[..n], fails[..n], nows[..n]);
      var r := SaveAll(rows, nextId, ideas, fails, nows).0;
      assert |before.0| <= |r| && r[..|before.0|] == before.0;
      forall k | 0 <= k < |ideas| && !fails[k]
        ensures exists i :: 0 <= i < |r| && SameKey(r[i], ideas[k])
      {
        if k < n {
          assert ideas[..n][k] == ideas[k] && fails[..n][k] == fails[k];
          var i :| 0 <= i < |before.0| && SameKey(before.0[i], ideas[k]);
          assert r[i] == before.0[i];
        } else if Inserts(before.0, ideas[n], fails[n]) {
          assert SameKey(r[|before.0|], ideas[n]);
        } else {
          var i :| 0 <= i < |before.0| && SameKey(before.0[i], ideas[n]);
          assert r[i] == before.0[i];
        }
      }
    }
  }

  function PendingOnly(rows: seq<Row>): seq<Row> {
    if rows == [] then []
    else (if rows[0].status == Pending then [rows[0]] else []) + PendingOnly(rows[1..])
  }

  function CreatedKey(r: Row): real {
    r.createdAt
  }

  /** `get_pending_ideas`: the pending rows, newest first; a failing query
      yields the empty list. */
  function PendingIdeas(rows: seq<Row>, fails: bool): seq<Row> {
    if fails then [] else SortDesc(PendingOnly(rows), CreatedKey)
  }

  lemma {:induction false} PendingOnlyCounts(rows: seq<Row>, x: Row)
    ensures multiset(PendingOnly(rows))[x] == if x.status == Pending then multiset(rows)[x] else 0
  {
    if rows != [] {
      PendingOnlyCounts(rows[1..], x);
      assert rows == [rows[0]] + rows[1..];
    }
  }

  /** The queue holds exactly the pending rows, newest first. */
  lemma PendingIdeasExact(rows: seq<Row>, x: Row)
    ensures multiset(PendingIdeas(rows, false))[x] == if x.status == Pending then multiset(rows)[x] else 0
    ensures x in PendingIdeas(rows, false) <==> x in rows && x.status == Pending
    ensures SortedDesc(PendingIdeas(rows, false), CreatedKey)
  {
    PendingOnlyCounts(rows, x);
    SortDescPermutation(PendingOnly(rows), CreatedKey);
    SortDescSorted(PendingOnly(rows), CreatedKey);
    assert x in PendingIdeas(rows, false) <==> multiset(PendingIdeas(rows, false))[x] > 0;
    assert x in rows <==> multiset(rows)[x] > 0;
  }

  class CrawlerDb {
    var rows: seq<Row>
    var nextId: nat

    ghost predicate Valid()
      reads this
    {
      WellFormed(rows, nextId)
    }

    constructor ()
      ensures Valid() && rows == []
    {
      rows := [];
      nextId := 1;
    }

    /** `save_idea`: `INSERT OR IGNORE` under `UNIQUE(title, source)`. True
        and one new pending row when no row has the same title and source;
        false and no change on a duplicate or when the store raises
        (`fails`). */
    method SaveIdea(idea: BusinessIdea, now: real, fails: bool) returns (ok: bool)
      requires Valid()
      modifies this
      ensures Valid()
      ensures ok <==> !fails && forall i :: 0 <= i < |old(rows)| ==> !SameKey(old(rows)[i], idea)
      ensures ok ==> rows == old(rows) + [NewRow(idea, old(nextId), now)] && nextId == old(nextId) + 1
      ensures !ok ==> rows == old(rows) && nextId == old(nextId)
      ensures (rows, nextId) == SaveRows(old(rows), old(nextId), idea, now, fails)
    {
      if fails {
        return false;
      }
      var i := 0;
      while i < |rows| && !SameKey(rows[i], idea)
        invariant 0 <= i <= |rows|
        invariant forall j :: 0 <= j < i ==> !SameKey(rows[j], idea)
      {
        i := i + 1;
      }
      if i < |rows| {
        return false;
      }
      rows := rows + [NewRow(idea, nextId, now)];
      nextId := nextId + 1;
      return true;
    }

    /** The shared `UPDATE ideas SET status = ? WHERE id = ?`: true iff a row
        has the id; the current status is not checked. */
    method SetStatus(id: int, s: Status, fails: bool) returns (ok: bool)
      requires Valid()
      modifies this
      ensures Valid() && nextId == old(nextId)
      ensures ok <==> !fails && exists i :: 0 <= i < |old(rows)| && old(rows)[i].id == id
      ensures rows == if fails then old(rows) else WithStatus(old(rows), id, s)
    {
      if fails {
        return false;
      }
      ghost var before := rows;
      ok := false;
      var i := 0;
      while i < |rows|
        invariant 0 <= i <= |rows| == |before|
        invariant forall k :: 0 <= k < i ==> rows[k] == WithStatus(before, id, s)[k]
        invariant forall k :: i <= k < |rows| ==> rows[k] == before[k]
        invariant ok <==> exists k :: 0 <= k < i && before[k].id == id
        invariant nextId == old(nextId)
      {
        if rows[i].id == id {
          rows := rows[i := rows[i].(status := s)];
          ok := true;
        }
        i := i + 1;
      }
      assert rows == WithStatus(before, id, s);
      StatusUpdateExact(before, nextId, id, s);
    }

    /** `approve_idea`. */
    method ApproveIdea(id: int, fails: bool) returns (ok: bool)
      requires Valid()
      modifies this
      ensures Valid() && nextId == old(nextId)
      ensures ok <==> !fails && exists i :: 0 <= i < |old(rows)| && old(rows)[i].id == id
      ensures rows == if fails then old(rows) else WithStatus(old(rows), id, Approved)
    {
      ok := SetStatus(id, Approved, fails);
    }

    /** `reject_idea`. */
    method RejectIdea(id: int, fails: bool) returns (ok: bool)
      requires Valid()
      modifies this
      ensures Valid() && nextId == old(nextId)
      ensures ok <==> !fails && exists i :: 0 <= i < |old(rows)| && old(rows)[i].id == id
      ensures rows == if fails then old(rows) else WithStatus(old(rows), id, Rejected)
    {
      ok := SetStatus(id, Rejected, fails);
    }

    /** `run_crawler` over the three sampled ideas: `saveFails[k]` says
        whether the k-th save raises and `nows[k]` is the clock reading its
        insert stamps, later for each save since the run sleeps between
        them. Three ideas found, the table after saving them in order, and
        as many added as there are new rows. */
    method RunCrawler(sample: seq<BusinessIdea>, saveFails: seq<bool>, nows: seq<real>)
      returns (found: nat, added: nat)
      requires Valid()
      requires |sample| == 3 && |saveFails| == |sample| && |nows| == |sample|
      requires forall a, b :: 0 <= a < b < |nows| ==> nows[a] < nows[b]
      modifies this
      ensures Valid()
      ensures (rows, nextId) == SaveAll(old(rows), old(nextId), sample, saveFails, nows)
      ensures found == 3 && added == |rows| - |old(rows)| && added <= found
      ensures rows[..|old(rows)|] == old(rows)
      ensures forall k :: |old(rows)| <= k < |rows| ==> rows[k].status == Pending && rows[k].idea in sample
      ensures forall i, j :: |old(rows)| <= i < j < |rows| ==> rows[i].createdAt < rows[j].createdAt
      ensures forall k :: 0 <= k < |sample| && !saveFails[k] ==>
        exists i :: 0 <= i < |rows| && SameKey(rows[i], sample[k])
    {
      found := |sample|;
      added := 0;
      ghost var before := rows;
      ghost var beforeId := nextId;
      var k := 0;
      while k < |sample|
        invariant 0 <= k <= |sample| && Valid()
        invariant (rows, nextId) == SaveAll(before, beforeId, sample[..k], saveFails[..k], nows[..k])
        invariant |rows| == |before| + added
      {
        SaveAllStep(before, beforeId, sample, saveFails, nows, k);
        var ok := SaveIdea(sample[k], nows[k], saveFails[k]);
        if ok {
          added := added + 1;
        }
        k := k + 1;
      }
      assert sample[..k] == sample && saveFails[..k] == saveFails && nows[..k] == nows;
      SaveAllAppends(before, beforeId, sample, saveFails, nows);
      SaveAllIncreasing(before, beforeId, sample, saveFails, nows);
      SaveAllStores(before, beforeId, sample, saveFails, nows);
    }
  }
}
