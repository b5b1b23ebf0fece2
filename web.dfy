/** The web front: the demo-mode gate, the vote endpoint's upsert and counts,
    and the queries behind the index and archive pages. */
module Web {
  import opened Wrappers
  import opened Records
  import opened Sorting
  import IdeaStore

  const Placeholder: string := "your_openai_api_key_here"

  /** Demo mode: the API key is unset, empty, or still the placeholder. */
  function DemoMode(apiKey: Option<string>): (demo: bool)
    ensures demo <==> apiKey == None || apiKey == Some("") || apiKey == Some(Placeholder)
    ensures apiKey.Some? && apiKey.value != "" && apiKey.value != Placeholder ==> !demo
  {
    var truthy := apiKey.Some? && |apiKey.value| > 0;
    !truthy || apiKey.GetOr("") == Placeholder
  }

  // ---------------------------------------------------------------------------
  // Votes

  /** A row of the `votes` table (its own id is not modelled). */
  datatype Vote = Vote(ideaId: int, userIp: string, voteType: string, createdAt: real)

  /** What the vote endpoint answers. */
  datatype VoteResponse =
    | DemoAccepted                          // success without touching the table
    | BadRequest                            // status 400: invalid vote type
    | Counted(upvotes: nat, downvotes: nat) // success with the counts after the write

  predicate SameVoter(v: Vote, ideaId: int, userIp: string) {
    v.ideaId == ideaId && v.userIp == userIp
  }

  /** The number of votes of the given type for an idea. */
  function CountFor(votes: seq<Vote>, ideaId: int, voteType: string): nat {
    if votes == [] then 0
    else
      var last := votes[|votes| - 1];
      CountFor(votes[..|votes| - 1], ideaId, voteType) +
        (if last.ideaId == ideaId && last.voteType == voteType then 1 else 0)
  }

  function Indicator(v: Vote, ideaId: int, voteType: string): nat {
    if v.ideaId == ideaId && v.voteType == voteType then 1 else 0
  }

  /** The vote the lookup finds: the first one of this voter on this idea. */
  function FindVote(votes: seq<Vote>, ideaId: int, userIp: string): (r: Option<nat>)
    ensures r.None? <==> forall j :: 0 <= j < |votes| ==> !SameVoter(votes[j], ideaId, userIp)
    ensures r.Some? ==>
      && r.value < |votes|
      && SameVoter(votes[r.value], ideaId, userIp)
      && (forall j :: 0 <= j < r.value ==> !SameVoter(votes[j], ideaId, userIp))
  {
    if votes == [] then None
    else if SameVoter(votes[0], ideaId, userIp) then Some(0)
    else
      var r := FindVote(votes[1..], ideaId, userIp);
      assert forall j :: 1 <= j < |votes| ==> votes[1..][j - 1] == votes[j];
      if r.None? then None else Some(r.value + 1)
  }

  /** The table after a valid vote: the voter's vote is overwritten with the
      new type and the local clock, or a new vote stamped with the UTC clock
      is added. */
  function Upserted(votes: seq<Vote>, ideaId: int, userIp: string, voteType: string,
                    now: real, utcNow: real): seq<Vote>
  {
    match FindVote(votes, ideaId, userIp)
    case Some(i) => votes[i := votes[i].(voteType := voteType, createdAt := now)]
    case None => votes + [Vote(ideaId, userIp, voteType, utcNow)]
  }

  /** At most one vote per voter and idea. */
  predicate OneVotePerVoter(votes: seq<Vote>) {
    forall i, j :: 0 <= i < j < |votes| ==> !SameVoter(votes[j], votes[i].ideaId, votes[i].userIp)
  }

  /** The upsert touches only this voter's vote on this idea, keeps one vote
      per voter, and leaves that vote with the new type. */
  lemma UpsertShape(votes: seq<Vote>, ideaId: int, userIp: string, voteType: string, now: real, utcNow: real)
    requires OneVotePerVoter(votes)
    ensures var after := Upserted(votes, ideaId, userIp, voteType, now, utcNow);
      && OneVotePerVoter(after)
      && (|after| == |votes| || |after| == |votes| + 1)
      && (forall j :: 0 <= j < |votes| && !SameVoter(votes[j], ideaId, userIp) ==> after[j] == votes[j])
      && (|after| == |votes| + 1 <==> forall j :: 0 <= j < |votes| ==> !SameVoter(votes[j], ideaId, userIp))
      && (exists k :: 0 <= k < |after| && SameVoter(after[k], ideaId, userIp) && after[k].voteType == voteType)
  {
    var after := Upserted(votes, ideaId, userIp, voteType, now, utcNow);
    match FindVote(votes, ideaId, userIp)
    case Some(i) =>
      assert SameVoter(after[i], ideaId, userIp);
    case None =>
      assert SameVoter(after[|votes|], ideaId, userIp);
  }

  lemma {:induction false} CountAppend(votes: seq<Vote>, v: Vote, ideaId: int, voteType: string)
    ensures CountFor(votes + [v], ideaId, voteType) == CountFor(votes, ideaId, voteType) + Indicator(v, ideaId, voteType)
  {
    assert (votes + [v])[..|votes|] == votes;
  }

  lemma {:induction false} CountUpdate(votes: seq<Vote>, i: nat, v: Vote, ideaId: int, voteType: string)
    requires i < |votes|
    ensures CountFor(votes[i := v], ideaId, voteType) + Indicator(votes[i], ideaId, voteType)
         == CountFor(votes, ideaId, voteType) + Indicator(v, ideaId, voteType)
    decreases |votes|
  {
    var n := |votes| - 1;
    var front := votes[..n];
    if i == n {
      assert votes[i := v] == front + [v];
      assert votes == front + [votes[n]];
      CountAppend(front, v, ideaId, voteType);
      CountAppend(front, votes[n], ideaId, voteType);
    } else {
      CountUpdate(front, i, v, ideaId, voteType);
      assert votes[i := v] == front[i := v] + [votes[n]];
      assert votes == front + [votes[n]];
      CountAppend(front[i := v], votes[n], ideaId, voteType);
      CountAppend(front, votes[n], ideaId, voteType);
    }
  }

  /** The counts after a vote: the voter's previous vote on this idea (if
      any) leaves the tally of its type and the new one joins its own;
      other ideas' tallies are unchanged. */
  lemma CountsAfterUpsert(votes: seq<Vote>, ideaId: int, userIp: string, voteType: string,
                          now: real, utcNow: real, t: string, other: int)
    requires other != ideaId
    ensures var after := Upserted(votes, ideaId, userIp, voteType, now, utcNow);
      && CountFor(after, other, t) == CountFor(votes, other, t)
      && (FindVote(votes, ideaId, userIp).None? ==>
            CountFor(after, ideaId, t) == CountFor(votes, ideaId, t) + (if t == voteType then 1 else 0))
      && (FindVote(votes, ideaId, userIp).Some? ==>
            CountFor(after, ideaId, t) + (if votes[FindVote(votes, ideaId, userIp).value].voteType == t then 1 else 0)
              == CountFor(votes, ideaId, t) + (if t == voteType then 1 else 0))
  {
    match FindVote(votes, ideaId, userIp)
    case Some(i) =>
      var v := votes[i].(voteType := voteType, createdAt := now);
      CountUpdate(votes, i, v, ideaId, t);
      CountUpdate(votes, i, v, other, t);
    case None =>
      var v := Vote(ideaId, userIp, voteType, utcNow);
      CountAppend(votes, v, ideaId, t);
      CountAppend(votes, v, other, t);
  }

  /** A vote answered in demo mode or rejected as invalid never changes the
      table; a valid one answers with the counts of the upserted table. */
  function VoteOutcome(demo: bool, votes: seq<Vote>, ideaId: int, userIp: string, voteType: string,
                       now: real, utcNow: real): (r: (VoteResponse, seq<Vote>))
    ensures demo ==> r == (DemoAccepted, votes)
    ensures !demo && voteType != "up" && voteType != "down" ==> r == (BadRequest, votes)
    ensures r.0.Counted? <==> !demo && (voteType == "up" || voteType == "down")
  {
    if demo then (DemoAccepted, votes)
    else if voteType !in ["up", "down"] then (BadRequest, votes)
    else
      var after := Upserted(votes, ideaId, userIp, voteType, now, utcNow);
      (Counted(CountFor(after, ideaId, "up"), CountFor(after, ideaId, "down")), after)
  }

  class VoteTable {
    var votes: seq<Vote>

    ghost predicate Valid()
      reads this
    {
      OneVotePerVoter(votes)
    }

    constructor ()
      ensures Valid() && votes == []
    {
      votes := [];
    }

    /** The number of votes of one type for an idea, counted by a scan. */
    method Count(ideaId: int, voteType: string) returns (n: nat)
      ensures n == CountFor(votes, ideaId, voteType)
    {
      n := 0;
      var i := 0;
      while i < |votes|
        invariant 0 <= i <= |votes|
        invariant n == CountFor(votes[..i], ideaId, voteType)
      {
        assert votes[..i + 1][..i] == votes[..i];
        if votes[i].ideaId == ideaId && votes[i].voteType == voteType {
          n := n + 1;
        }
        i := i + 1;
      }
      assert votes[..i] == votes;
    }

    /** The `vote` endpoint: demo mode answers success and writes nothing; an
        invalid type is refused; otherwise the voter's vote is upserted and
        the idea's up and down counts are returned. */
    method CastVote(demo: bool, ideaId: int, userIp: string, voteType: string, now: real, utcNow: real)
      returns (r: VoteResponse)
      requires Valid()
      modifies this
      ensures Valid()
      ensures (r, votes) == VoteOutcome(demo, old(votes), ideaId, userIp, voteType, now, utcNow)
    {
      if demo {
        return DemoAccepted;
      }
      if voteType != "up" && voteType != "down" {
        return BadRequest;
      }
      UpsertShape(votes, ideaId, userIp, voteType, now, utcNow);
      var i := 0;
      while i < |votes| && !SameVoter(votes[i], ideaId, userIp)
        invariant 0 <= i <= |votes|
        invariant forall j :: 0 <= j < i ==> !SameVoter(votes[j], ideaId, userIp)
      {
        i := i + 1;
      }
      if i < |votes| {
        assert FindVote(votes, ideaId, userIp) == Some(i);
        votes := votes[i := votes[i].(voteType := voteType, createdAt := now)];
      } else {
        votes := votes + [Vote(ideaId, userIp, voteType, utcNow)];
      }
      var up := Count(ideaId, "up");
      var down := Count(ideaId, "down");
      r := Counted(up, down);
    }
  }

  // ---------------------------------------------------------------------------
  // Pages

  predicate ShownToday(row: StoredIdea, midnight: real) {
    !row.archived && row.createdAt >= midnight
  }

  /** The index query: the first unarchived idea created since today's
      midnight. */
  function TodaysIdea(rows: seq<StoredIdea>, midnight: real): (r: Option<StoredIdea>)
    ensures r.None? <==> forall j :: 0 <= j < |rows| ==> !ShownToday(rows[j], midnight)
    ensures r.Some? ==> exists i :: 0 <= i < |rows| && rows[i] == r.value && ShownToday(rows[i], midnight) &&
                                    (forall j :: 0 <= j < i ==> !ShownToday(rows[j], midnight))
  {
    if rows == [] then None
    else if ShownToday(rows[0], midnight) then
      assert 0 < |rows| && ShownToday(rows[0], midnight);  // the witness i := 0
      Some(rows[0])
    else
      var r := TodaysIdea(rows[1..], midnight);
      assert forall j :: 1 <= j < |rows| ==> rows[1..][j - 1] == rows[j];
      if r.Some? then
        var i :| 0 <= i < |rows[1..]| && rows[1..][i] == r.value && ShownToday(rows[1..][i], midnight) &&
          forall j :: 0 <= j < i ==> !ShownToday(rows[1..][j], midnight);
        assert rows[i + 1] == r.value;
        r
      else r
  }

  /** What the index page shows. */
  datatype IndexPage =
    | DemoIndex(upvotes: nat, downvotes: nat)
    | TodayIndex(idea: Option<StoredIdea>, upvotes: nat, downvotes: nat)

  /** The index page: the demo idea with fixed counts in demo mode, otherwise
      today's idea with its vote counts, or no idea and zero counts. */
  function Index(demo: bool, rows: seq<StoredIdea>, votes: seq<Vote>, midnight: real): (page: IndexPage)
    ensures demo <==> page.DemoIndex?
    ensures demo ==> page.upvotes == 42 && page.downvotes == 8
    ensures !demo ==> page.idea == TodaysIdea(rows, midnight)
    ensures !demo && page.idea.Some? ==>
      page.upvotes == CountFor(votes, page.idea.value.id, "up") &&
      page.downvotes == CountFor(votes, page.idea.value.id, "down")
    ensures !demo && page.idea.None? ==> page.upvotes == 0 && page.downvotes == 0
  {
    if demo then DemoIndex(42, 8)
    else match TodaysIdea(rows, midnight)
      case Some(idea) => TodayIndex(Some(idea), CountFor(votes, idea.id, "up"), CountFor(votes, idea.id, "down"))
      case None => TodayIndex(None, 0, 0)
  }

  /** The counts the index page shows belong to today's idea alone: with row
      ids unique, no other row shares the id the votes are counted under. */
  lemma IndexCountsOneIdea(rows: seq<StoredIdea>, nextId: nat, votes: seq<Vote>, midnight: real)
    requires IdeaStore.IdsBelow(rows, nextId)
    ensures var page := Index(false, rows, votes, midnight);
      page.idea.Some? ==>
        exists i :: 0 <= i < |rows| && rows[i] == page.idea.value &&
          forall j :: 0 <= j < |rows| && rows[j].id == page.idea.value.id ==> j == i
  {
    var page := Index(false, rows, votes, midnight);
    if page.idea.Some? {
      var i :| 0 <= i < |rows| && rows[i] == page.idea.value && ShownToday(rows[i], midnight) &&
        (forall j :: 0 <= j < i ==> !ShownToday(rows[j], midnight));
      forall j | 0 <= j < |rows| && rows[j].id == page.idea.value.id
        ensures j == i
      {
        IdeaStore.IdsIdentifyRows(rows, nextId, i, j);
      }
    }
  }

  /** The archived rows in table order. */
  function ArchivedOnly(rows: seq<StoredIdea>): seq<StoredIdea> {
    if rows == [] then []
    else (if rows[0].archived then [rows[0]] else []) + ArchivedOnly(rows[1..])
  }

  function CreatedKey(row: StoredIdea): real {
    row.createdAt
  }

  /** The archive query: archived rows, newest first. */
  function ArchivePage(rows: seq<StoredIdea>): seq<StoredIdea> {
    SortDesc(ArchivedOnly(rows), CreatedKey)
  }

  lemma {:induction false} ArchivedOnlyCounts(rows: seq<StoredIdea>, x: StoredIdea)
    ensures multiset(ArchivedOnly(rows))[x] == if x.archived then multiset(rows)[x] else 0
  {
    if rows != [] {
      ArchivedOnlyCounts(rows[1..], x);
      assert rows == [rows[0]] + rows[1..];
    }
  }

  /** The archive page holds every archived row once for each time it is
      stored, no other row, newest first. */
  lemma ArchivePageExact(rows: seq<StoredIdea>, x: StoredIdea)
    ensures multiset(ArchivePage(rows))[x] == if x.archived then multiset(rows)[x] else 0
    ensures x in ArchivePage(rows) <==> x in rows && x.archived
    ensures SortedDesc(ArchivePage(rows), CreatedKey)
  {
    ArchivedOnlyCounts(rows, x);
    SortDescPermutation(ArchivedOnly(rows), CreatedKey);
    SortDescSorted(ArchivedOnly(rows), CreatedKey);
    assert x in ArchivePage(rows) <==> multiset(ArchivePage(rows))[x] > 0;
    assert x in rows <==> multiset(rows)[x] > 0;
  }
}
