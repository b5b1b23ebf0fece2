/** The `ideas` table as the agent writes it: saving a processed idea and the
    archive pass that retires ideas older than a day. */
module IdeaStore {
  import opened Wrappers
  import opened Records
  import Dedup

  /** The row `save_idea_to_database` adds for a processed idea: never
      archived, both timestamps set to the UTC clock. */
  function NewRow(p: ProcessedIdea, id: nat, utcNow: real): (row: StoredIdea)
    ensures row.id == id && !row.archived && row.createdAt == utcNow && row.updatedAt == utcNow
    ensures row.ideaTitle == p.ideaTitle && row.sourceUrl == p.sourceUrl && row.summaryKr == p.summaryKr
    ensures row.publishedAt == p.publishedAt && row.language == p.language && row.sourceType == p.sourceType
  {
    StoredIdea(id, p.ideaTitle, p.sourceUrl, p.summaryKr, p.publishedAt, p.language, p.sourceType,
               false, utcNow, utcNow)
  }

  /** A row the archive pass retires: not archived and created before the
      cutoff. */
  predicate Eligible(row: StoredIdea, cutoff: real) {
    !row.archived && row.createdAt < cutoff
  }

  function ArchiveRow(row: StoredIdea, cutoff: real, utcNow: real): StoredIdea {
    if Eligible(row, cutoff) then row.(archived := true, updatedAt := utcNow) else row
  }

  /** The table after an archive pass with the given cutoff. */
  function ArchiveRows(rows: seq<StoredIdea>, cutoff: real, utcNow: real): seq<StoredIdea> {
    seq(|rows|, i requires 0 <= i < |rows| => ArchiveRow(rows[i], cutoff, utcNow))
  }

  /** The number of rows an archive pass would retire. */
  function CountEligible(rows: seq<StoredIdea>, cutoff: real): nat {
    if rows == [] then 0
    else (if Eligible(rows[0], cutoff) then 1 else 0) + CountEligible(rows[1..], cutoff)
  }

  /** The pass archives exactly the eligible rows, stamps them, and changes no
      other row and no other field. */
  lemma ArchiveExact(rows: seq<StoredIdea>, cutoff: real, utcNow: real, i: nat)
    requires i < |rows|
    ensures |ArchiveRows(rows, cutoff, utcNow)| == |rows|
    ensures ArchiveRows(rows, cutoff, utcNow)[i].archived <==> rows[i].archived || rows[i].createdAt < cutoff
    ensures Eligible(rows[i], cutoff) ==> ArchiveRows(rows, cutoff, utcNow)[i].updatedAt == utcNow
    ensures !Eligible(rows[i], cutoff) ==> ArchiveRows(rows, cutoff, utcNow)[i] == rows[i]
    ensures ArchiveRows(rows, cutoff, utcNow)[i].(archived := rows[i].archived, updatedAt := rows[i].updatedAt) == rows[i]
  {
  }

  lemma {:induction false} CountEligibleZero(rows: seq<StoredIdea>, cutoff: real)
    ensures CountEligible(rows, cutoff) == 0 <==> forall i :: 0 <= i < |rows| ==> !Eligible(rows[i], cutoff)
  {
    if rows != [] {
      CountEligibleZero(rows[1..], cutoff);
      assert forall i :: 1 <= i < |rows| ==> rows[1..][i - 1] == rows[i];
    }
  }

  /** After a pass nothing is left to archive, so a second pass with the same
      cutoff retires zero rows and changes nothing. */
  lemma ArchiveTwice(rows: seq<StoredIdea>, cutoff: real, utcNow: real, later: real)
    ensures CountEligible(ArchiveRows(rows, cutoff, utcNow), cutoff) == 0
    ensures ArchiveRows(ArchiveRows(rows, cutoff, utcNow), cutoff, later) == ArchiveRows(rows, cutoff, utcNow)
  {
    CountEligibleZero(ArchiveRows(rows, cutoff, utcNow), cutoff);
  }

  /** The ids of the rows: each below `nextId`, strictly increasing. */
  ghost predicate IdsBelow(rows: seq<StoredIdea>, nextId: nat) {
    (forall i :: 0 <= i < |rows| ==> rows[i].id < nextId) &&
    (forall i, j :: 0 <= i < j < |rows| ==> rows[i].id < rows[j].id)
  }

  /** Under the id invariant a row is named by its id: two positions holding
      the same id are the same position. */
  lemma IdsIdentifyRows(rows: seq<StoredIdea>, nextId: nat, i: nat, j: nat)
    requires IdsBelow(rows, nextId) && i < |rows| && j < |rows|
    ensures rows[i].id == rows[j].id <==> i == j
  {
  }

  class IdeaTable {
    var rows: seq<StoredIdea>
    var nextId: nat

    /** Row ids are unique: each save takes a fresh, larger id. */
    ghost predicate Valid()
      reads this
    {
      IdsBelow(rows, nextId)
    }

    constructor ()
      ensures Valid() && rows == []
    {
      rows := [];
      nextId := 1;
    }

    /** What the duplicate check reads: the rows, and whether the lookup
        fails. */
    function Snapshot(failing: bool): (s: Dedup.Session)
      reads this
      ensures s.rows == rows && s.failing == failing
    {
      Dedup.Session(rows, failing)
    }

    /** `save_idea_to_database`: True and one new row, or False and no change
        when the store raises (`fails`). */
    method Save(p: ProcessedIdea, utcNow: real, fails: bool) returns (ok: bool)
      requires Valid()
      modifies this
      ensures Valid()
      ensures ok <==> !fails
      ensures fails ==> rows == old(rows) && nextId == old(nextId)
      ensures !fails ==> rows == old(rows) + [NewRow(p, old(nextId), utcNow)] && nextId == old(nextId) + 1
    {
      if fails {
        return false;
      }
      rows := rows + [NewRow(p, nextId, utcNow)];
      nextId := nextId + 1;
      return true;
    }

    /** `archive_old_ideas` at local time `now`: every unarchived row created
        more than a day before `now` is archived, and `updated_at` takes the
        UTC clock. An error of the store (`fails`) is caught and leaves the
        table as it was. */
    method ArchiveOldIdeas(now: real, utcNow: real, fails: bool)
      requires Valid()
      modifies this
      ensures Valid()
      ensures nextId == old(nextId)
      ensures fails ==> rows == old(rows)
      ensures !fails ==> rows == ArchiveRows(old(rows), now - Day, utcNow)
    {
      if fails {
        return;
      }
      var cutoff := now - Day;
      ghost var before := rows;
      var i := 0;
      while i < |rows|
        invariant 0 <= i <= |rows| == |before|
        invariant forall k :: 0 <= k < i ==> rows[k] == ArchiveRow(before[k], cutoff, utcNow)
        invariant forall k :: i <= k < |rows| ==> rows[k] == before[k]
        invariant nextId == old(nextId)
      {
        if Eligible(rows[i], cutoff) {
          rows := rows[i := rows[i].(archived := true, updatedAt := utcNow)];
        }
        i := i + 1;
      }
      assert forall k :: 0 <= k < |rows| ==> rows[k].id == before[k].id;
    }
  }
}
