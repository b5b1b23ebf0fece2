/** The daily job: discover, save what was discovered, always archive; and
    the start-up check that runs the job when today has no active idea. */
module Scheduler {
  import opened Wrappers
  import opened Records
  import opened Enrichment
  import opened Agent
  import opened IdeaStore

  /** Everything a run depends on besides the table and the clocks: the
      scraper results, whether the duplicate lookup fails, the model's reply,
      and whether saving and archiving fail. */
  datatype RunInputs = RunInputs(
    sources: Sources,
    lookupFails: bool,
    reply: AiReply,
    saveFails: bool,
    archiveFails: bool)

  /** The table after the save step of a run whose discovery ended with `d`. */
  function SavedRows(rows: seq<StoredIdea>, nextId: nat, d: Outcome<Option<ProcessedIdea>>,
                     saveFails: bool, utcNow: real): seq<StoredIdea>
  {
    if d.Returned? && d.value.Some? && !saveFails then rows + [NewRow(d.value.value, nextId, utcNow)]
    else rows
  }

  /** The table after the archive step. */
  function ArchivedRows(rows: seq<StoredIdea>, archiveFails: bool, now: real, utcNow: real): seq<StoredIdea> {
    if archiveFails then rows else ArchiveRows(rows, now - Day, utcNow)
  }

  /** The table after a whole run at local time `now`. */
  function RunRows(rows: seq<StoredIdea>, nextId: nat, inputs: RunInputs, now: real, utcNow: real): seq<StoredIdea> {
    var d := Discover(inputs.sources, Dedup.Session(rows, inputs.lookupFails), inputs.reply, now);
    ArchivedRows(SavedRows(rows, nextId, d, inputs.saveFails, utcNow), inputs.archiveFails, now, utcNow)
  }

  /** `run_daily_discovery`: the idea is saved only when discovery returned
      one; a discovery that raises is caught; archiving runs in every case
      and its own error is caught too. */
  method RunDailyDiscovery(table: IdeaTable, inputs: RunInputs, now: real, utcNow: real) returns (saved: bool)
    requires table.Valid()
    modifies table
    ensures table.Valid()
    ensures saved <==>
      Discover(inputs.sources, Dedup.Session(old(table.rows), inputs.lookupFails), inputs.reply, now).Returned? &&
      Discover(inputs.sources, Dedup.Session(old(table.rows), inputs.lookupFails), inputs.reply, now).value.Some? &&
      !inputs.saveFails
    ensures table.rows == RunRows(old(table.rows), old(table.nextId), inputs, now, utcNow)
  {
    saved := false;
    var d := DiscoverDailyIdea(inputs.sources, table.Snapshot(inputs.lookupFails), inputs.reply, now);
    if d.Returned? && d.value.Some? {
      saved := table.Save(d.value.value, utcNow, inputs.saveFails);
    }
    table.ArchiveOldIdeas(now, utcNow, inputs.archiveFails);
  }

  /** Whatever discovery does, an archive pass that does not fail leaves no
      row to archive. */
  lemma ArchiveAlwaysRuns(rows: seq<StoredIdea>, nextId: nat, inputs: RunInputs, now: real, utcNow: real)
    requires !inputs.archiveFails
    ensures CountEligible(RunRows(rows, nextId, inputs, now, utcNow), now - Day) == 0
  {
    var d := Discover(inputs.sources, Dedup.Session(rows, inputs.lookupFails), inputs.reply, now);
    ArchiveTwice(SavedRows(rows, nextId, d, inputs.saveFails, utcNow), now - Day, utcNow, utcNow);
  }

  /** The idea a run saves stays active when the UTC clock is no more than a
      day behind the local one; the table then ends with it. */
  lemma SavedIdeaStaysActive(rows: seq<StoredIdea>, nextId: nat, inputs: RunInputs, now: real, utcNow: real,
                             p: ProcessedIdea)
    requires Discover(inputs.sources, Dedup.Session(rows, inputs.lookupFails), inputs.reply, now) == Returned(Some(p))
    requires !inputs.saveFails && utcNow >= now - Day
    ensures var after := RunRows(rows, nextId, inputs, now, utcNow);
      |after| == |rows| + 1 && after[|rows|] == NewRow(p, nextId, utcNow)
  {
    var saved := rows + [NewRow(p, nextId, utcNow)];
    assert SavedRows(rows, nextId, Returned(Some(p)), inputs.saveFails, utcNow) == saved;
    if !inputs.archiveFails {
      ArchiveExact(saved, now - Day, utcNow, |rows|);
    }
  }

  // ---------------------------------------------------------------------------
  // The start-up check

  predicate ActiveToday(row: StoredIdea, todayStart: real) {
    !row.archived && todayStart <= row.createdAt < todayStart + Day
  }

  /** The first row the start-up query finds: unarchived and created in
      `[todayStart, todayStart + 1 day)`. */
  function ActiveIdea(rows: seq<StoredIdea>, todayStart: real): (r: Option<StoredIdea>)
    ensures r.None? <==> forall i :: 0 <= i < |rows| ==> !ActiveToday(rows[i], todayStart)
    ensures r.Some? ==> r.value in rows && ActiveToday(r.value, todayStart)
  {
    if rows == [] then None
    else if ActiveToday(rows[0], todayStart) then Some(rows[0])
    else
      var r := ActiveIdea(rows[1..], todayStart);
      assert forall i :: 1 <= i < |rows| ==> rows[1..][i - 1] == rows[i];
      r
  }

  /** `_check_and_run_if_needed` with `todayStart` today's midnight: a run
      exactly when no active idea exists for today. A failing query
      (`checkFails`) is caught and runs nothing. */
  method CheckAndRunIfNeeded(table: IdeaTable, inputs: RunInputs, checkFails: bool,
                             todayStart: real, now: real, utcNow: real) returns (ran: bool)
    requires table.Valid()
    modifies table
    ensures table.Valid()
    ensures ran <==> !checkFails && forall i :: 0 <= i < |old(table.rows)| ==> !ActiveToday(old(table.rows)[i], todayStart)
    ensures !ran ==> table.rows == old(table.rows)
    ensures ran ==> table.rows == RunRows(old(table.rows), old(table.nextId), inputs, now, utcNow)
  {
    ran := false;
    if checkFails {
      return;
    }
    var active := ActiveIdea(table.rows, todayStart);
    if active.None? {
      var _ := RunDailyDiscovery(table, inputs, now, utcNow);
      ran := true;
    }
  }
}
