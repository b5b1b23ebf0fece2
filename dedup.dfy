/** Duplicate detection against the published ideas: the per-title check of
    the AI processor and the agent's pass over the ranked candidates. */
module Dedup {
  import opened Wrappers
  import opened Text
  import opened Records

  /** How far back a stored idea counts as a duplicate. */
  const Window: real := 30.0 * Day

  /** A database session over the `ideas` table. When `failing` holds, every
      query on it raises. */
  datatype Session = Session(rows: seq<StoredIdea>, failing: bool)

  /** A stored idea with exactly this title, created at `since` or later. */
  predicate ExactMatch(title: string, rows: seq<StoredIdea>, since: real) {
    exists i :: 0 <= i < |rows| && rows[i].ideaTitle == title && rows[i].createdAt >= since
  }

  /** A stored idea whose title contains `word`, ignoring case, created at
      `since` or later (the `ILIKE '%word%'` query). */
  predicate TokenMatch(word: string, rows: seq<StoredIdea>, since: real) {
    exists i :: 0 <= i < |rows| &&
      Contains(Lower(rows[i].ideaTitle), Lower(word)) && rows[i].createdAt >= since
  }

  /** The keywords of a title: its lowercased whitespace-separated words. */
  function Keywords(title: string): seq<string> {
    Split(Lower(title))
  }

  /** Some keyword longer than 3 characters matches a recent stored title. */
  predicate KeywordMatch(title: string, rows: seq<StoredIdea>, since: real) {
    var words := Keywords(title);
    exists j :: 0 <= j < |words| && |words[j]| > 3 && TokenMatch(words[j], rows, since)
  }

  /** The answer `check_duplicate` gives for `title` at local time `now`. */
  predicate IsDuplicate(title: string, rows: seq<StoredIdea>, now: real) {
    ExactMatch(title, rows, now - Window) || KeywordMatch(title, rows, now - Window)
  }

  /** `check_duplicate`: the exact-title query, then one query per keyword
      longer than 3 characters, returning at the first hit. A failing session
      raises at the first query. */
  method CheckDuplicate(title: string, db: Session, now: real) returns (r: Outcome<bool>)
    ensures db.failing ==> r == Raised
    ensures !db.failing ==> r == Returned(IsDuplicate(title, db.rows, now))
  {
    if db.failing {
      return Raised;
    }
    var since := now - Window;
    if ExactMatch(title, db.rows, since) {
      return Returned(true);
    }
    var words := Split(Lower(title));
    assert words == Keywords(title);
    var k := 0;
    while k < |words|
      invariant 0 <= k <= |words|
      invariant forall j :: 0 <= j < k ==> !(|words[j]| > 3 && TokenMatch(words[j], db.rows, since))
    {
      if |words[k]| > 3 && TokenMatch(words[k], db.rows, since) {
        assert KeywordMatch(title, db.rows, since);
        return Returned(true);
      }
      k := k + 1;
    }
    return Returned(false);
  }

  // ---------------------------------------------------------------------------
  // Properties of the check

  /** The rows created at `since` or later, in table order. */
  function RecentRows(rows: seq<StoredIdea>, since: real): (r: seq<StoredIdea>)
    ensures forall x :: x in r <==> x in rows && x.createdAt >= since
  {
    if rows == [] then []
    else
      assert rows == [rows[0]] + rows[1..];
      (if rows[0].createdAt >= since then [rows[0]] else []) + RecentRows(rows[1..], since)
  }

  /** Rows created before the window never make a title a duplicate,
      wherever they stand in the table: the answer is the one the rows inside
      the window alone give. */
  lemma OldRowsIgnored(title: string, rows: seq<StoredIdea>, now: real)
    ensures IsDuplicate(title, rows, now) <==> IsDuplicate(title, RecentRows(rows, now - Window), now)
  {
    var since := now - Window;
    ExactIgnoresStale(title, rows, since);
    var words := Keywords(title);
    forall j | 0 <= j < |words|
      ensures TokenMatch(words[j], rows, since) <==> TokenMatch(words[j], RecentRows(rows, since), since)
    {
      TokenIgnoresStale(words[j], rows, since);
    }
  }

  lemma ExactIgnoresStale(title: string, rows: seq<StoredIdea>, since: real)
    ensures ExactMatch(title, rows, since) <==> ExactMatch(title, RecentRows(rows, since), since)
  {
    var recent := RecentRows(rows, since);
    if ExactMatch(title, rows, since) {
      var i :| 0 <= i < |rows| && rows[i].ideaTitle == title && rows[i].createdAt >= since;
      assert rows[i] in recent;
    }
    if ExactMatch(title, recent, since) {
      var i :| 0 <= i < |recent| && recent[i].ideaTitle == title && recent[i].createdAt >= since;
      assert recent[i] in rows;
    }
  }

  lemma TokenIgnoresStale(word: string, rows: seq<StoredIdea>, since: real)
    ensures TokenMatch(word, rows, since) <==> TokenMatch(word, RecentRows(rows, since), since)
  {
    var recent := RecentRows(rows, since);
    if TokenMatch(word, rows, since) {
      var i :| 0 <= i < |rows| && Contains(Lower(rows[i].ideaTitle), Lower(word)) && rows[i].createdAt >= since;
      assert rows[i] in recent;
    }
    if TokenMatch(word, recent, since) {
      var i :| 0 <= i < |recent| && Contains(Lower(recent[i].ideaTitle), Lower(word)) && recent[i].createdAt >= since;
      assert recent[i] in rows;
    }
  }

  /** With no stored idea inside the window nothing is a duplicate. */
  lemma NoRecentRowNoDuplicate(title: string, rows: seq<StoredIdea>, now: real)
    requires forall i :: 0 <= i < |rows| ==> rows[i].createdAt < now - Window
    ensures !IsDuplicate(title, rows, now)
  {
    OldRowsIgnored(title, rows, now);
    var recent := RecentRows(rows, now - Window);
    assert |recent| > 0 ==> recent[0] in rows && recent[0].createdAt >= now - Window;
  }

  /** More stored ideas can only turn a fresh title into a duplicate, never
      the reverse. */
  lemma MoreRowsMoreDuplicates(title: string, rows: seq<StoredIdea>, more: seq<StoredIdea>, now: real)
    requires IsDuplicate(title, rows, now)
    ensures IsDuplicate(title, rows + more, now)
  {
    var since := now - Window;
    if ExactMatch(title, rows, since) {
      ExactMatchGrows(title, rows, more, since);
    } else {
      var words := Keywords(title);
      var j :| 0 <= j < |words| && |words[j]| > 3 && TokenMatch(words[j], rows, since);
      TokenMatchGrows(words[j], rows, more, since);
    }
  }

  lemma ExactMatchGrows(title: string, rows: seq<StoredIdea>, more: seq<StoredIdea>, since: real)
    requires ExactMatch(title, rows, since)
    ensures ExactMatch(title, rows + more, since)
  {
    var i :| 0 <= i < |rows| && rows[i].ideaTitle == title && rows[i].createdAt >= since;
    assert (rows + more)[i] == rows[i];
  }

  lemma TokenMatchGrows(word: string, rows: seq<StoredIdea>, more: seq<StoredIdea>, since: real)
    requires TokenMatch(word, rows, since)
    ensures TokenMatch(word, rows + more, since)
  {
    var i :| 0 <= i < |rows| && Contains(Lower(rows[i].ideaTitle), Lower(word)) && rows[i].createdAt >= since;
    assert (rows + more)[i] == rows[i];
  }

  /** A title whose words are all 3 characters or shorter is a duplicate only
      through the exact-title query. */
  lemma ShortWordsOnlyExact(title: string, rows: seq<StoredIdea>, now: real)
    requires forall j :: 0 <= j < |Keywords(title)| ==> |Keywords(title)[j]| <= 3
    ensures IsDuplicate(title, rows, now) <==> ExactMatch(title, rows, now - Window)
  {
  }

  /** A recent stored idea with the same title always makes it a duplicate. */
  lemma SameTitleIsDuplicate(title: string, rows: seq<StoredIdea>, i: nat, now: real)
    requires i < |rows| && rows[i].ideaTitle == title && rows[i].createdAt >= now - Window
    ensures IsDuplicate(title, rows, now)
  {
  }

  /** A title whose first word is "Remote", such as "Remote Team VR
      Platform", is a duplicate of any idea published ten days earlier whose
      title starts with "Remote", such as "Remote Team VR Collaboration
      Tool": they share the keyword "remote". */
  lemma SharedWordExample(rest: string, row: StoredIdea, now: real)
    requires |row.ideaTitle| >= 6 && row.ideaTitle[..6] == "Remote"
    requires row.createdAt == now - 10.0 * Day
    ensures IsDuplicate("Remote " + rest, [row], now)
  {
    var title := "Remote " + rest;
    assert title == "Remote" + " " + rest;
    assert NoSpace("Remote");
    FirstKeyword("Remote", rest);
    LowerRemote();
    LowerIdempotent("Remote");
    LowerPrefixOccurs(row.ideaTitle, "remote");
    RowMatches("remote", row, now - Window);
    FirstKeywordDuplicate(title, [row], now);
  }

  lemma LowerRemote()
    ensures Lower("Remote") == "remote"
  {
    var l := Lower("Remote");
    assert LowerChar('R') == 'r';
    assert forall k :: 0 <= k < 6 ==> l[k] == "remote"[k];
  }

  /** The first keyword of `first + " " + rest` is `first`, lowercased,
      when `first` holds no whitespace. */
  lemma FirstKeyword(first: string, rest: string)
    requires first != [] && NoSpace(first)
    ensures Keywords(first + " " + rest) == [Lower(first)] + Split(Lower(rest))
  {
    LowerAppend(first, " " + rest);
    LowerAppend(" ", rest);
    assert Lower(" ") == " ";
    assert Lower(first + " " + rest) == Lower(first) + " " + Lower(rest);
    LowerNoSpace(first);
    SplitFirstWord(Lower(first), Lower(rest));
  }

  lemma FirstKeywordDuplicate(title: string, rows: seq<StoredIdea>, now: real)
    requires |Keywords(title)| > 0 && |Keywords(title)[0]| > 3
    requires TokenMatch(Keywords(title)[0], rows, now - Window)
    ensures IsDuplicate(title, rows, now)
  {
  }

  lemma RowMatches(word: string, row: StoredIdea, since: real)
    requires Contains(Lower(row.ideaTitle), Lower(word)) && row.createdAt >= since
    ensures TokenMatch(word, [row], since)
  {
    assert [row][0] == row;
  }

  // ---------------------------------------------------------------------------
  // The agent's pass over the candidates

  /** The title a candidate is checked under: its first 100 characters. */
  function CheckedTitle(idea: Idea): (t: string)
    ensures |t| <= 100 && |t| <= |idea.title| && t == idea.title[..|t|]
    ensures |idea.title| <= 100 ==> t == idea.title
    ensures |idea.title| > 100 ==> |t| == 100
  {
    Take(idea.title, 100)
  }

  /** Whether a candidate survives the check: its checked title is not a
      duplicate. */
  function Fresh(rows: seq<StoredIdea>, now: real): Idea -> bool {
    idea => !IsDuplicate(CheckedTitle(idea), rows, now)
  }

  /** The records of `ideas` that `keep` accepts, in order. */
  function KeepIf(ideas: seq<Idea>, keep: Idea -> bool): seq<Idea> {
    if ideas == [] then []
    else
      var last := ideas[|ideas| - 1];
      KeepIf(ideas[..|ideas| - 1], keep) + (if keep(last) then [last] else [])
  }

  /** The candidates whose checked title is not a duplicate, in order. */
  function Unique(ideas: seq<Idea>, rows: seq<StoredIdea>, now: real): seq<Idea> {
    KeepIf(ideas, Fresh(rows, now))
  }

  /** `_check_duplicates`: one check per candidate, keeping the candidates
      that are not duplicates. The first lookup that raises ends the pass. */
  method CheckDuplicates(ideas: seq<Idea>, db: Session, now: real) returns (r: Outcome<seq<Idea>>)
    ensures db.failing && ideas != [] ==> r == Raised
    ensures !db.failing || ideas == [] ==> r == Returned(Unique(ideas, db.rows, now))
  {
    var unique := [];
    var k := 0;
    while k < |ideas|
      invariant 0 <= k <= |ideas|
      invariant !db.failing || k == 0
      invariant unique == Unique(ideas[..k], db.rows, now)
    {
      var dup := CheckDuplicate(CheckedTitle(ideas[k]), db, now);
      if dup.Raised? {
        return Raised;
      }
      KeepIfStep(ideas, k, Fresh(db.rows, now));
      if !dup.value {
        unique := unique + [ideas[k]];
      }
      k := k + 1;
    }
    assert ideas[..k] == ideas;
    return Returned(unique);
  }

  /** One more record: it is kept exactly when `keep` accepts it. */
  lemma KeepIfStep(ideas: seq<Idea>, k: nat, keep: Idea -> bool)
    requires k < |ideas|
    ensures KeepIf(ideas[..k + 1], keep) == KeepIf(ideas[..k], keep) + (if keep(ideas[k]) then [ideas[k]] else [])
  {
    assert ideas[..k + 1][..k] == ideas[..k];
  }

  lemma {:induction false} KeepIfConcat(a: seq<Idea>, b: seq<Idea>, keep: Idea -> bool)
    ensures KeepIf(a + b, keep) == KeepIf(a, keep) + KeepIf(b, keep)
    decreases |b|
  {
    if b == [] {
      assert a + b == a;
    } else {
      var n := |b| - 1;
      KeepIfConcat(a, b[..n], keep);
      assert (a + b)[..|a + b| - 1] == a + b[..n];
      assert (a + b)[|a + b| - 1] == b[n];
    }
  }

  lemma {:induction false} KeepIfMembers(ideas: seq<Idea>, keep: Idea -> bool, x: Idea)
    ensures x in KeepIf(ideas, keep) <==> x in ideas && keep(x)
  {
    if ideas != [] {
      var n := |ideas| - 1;
      KeepIfMembers(ideas[..n], keep, x);
      assert ideas == ideas[..n] + [ideas[n]];
    }
  }

  lemma {:induction false} KeepIfShorter(ideas: seq<Idea>, keep: Idea -> bool)
    ensures |KeepIf(ideas, keep)| <= |ideas|
  {
    if ideas != [] {
      KeepIfShorter(ideas[..|ideas| - 1], keep);
    }
  }

  /** Deduplication works record by record: it distributes over
      concatenation. */
  lemma UniqueConcat(a: seq<Idea>, b: seq<Idea>, rows: seq<StoredIdea>, now: real)
    ensures Unique(a + b, rows, now) == Unique(a, rows, now) + Unique(b, rows, now)
  {
    KeepIfConcat(a, b, Fresh(rows, now));
  }

  /** The kept candidates are exactly those whose checked title is not a
      duplicate. */
  lemma UniqueMembers(ideas: seq<Idea>, rows: seq<StoredIdea>, now: real, x: Idea)
    ensures x in Unique(ideas, rows, now) <==> x in ideas && !IsDuplicate(CheckedTitle(x), rows, now)
  {
    KeepIfMembers(ideas, Fresh(rows, now), x);
  }

  /** The kept candidates are no more than the input, and the first of them
      is an input. */
  lemma UniqueShorter(ideas: seq<Idea>, rows: seq<StoredIdea>, now: real)
    ensures |Unique(ideas, rows, now)| <= |ideas|
    ensures Unique(ideas, rows, now) == [] || Unique(ideas, rows, now)[0] in ideas
  {
    KeepIfShorter(ideas, Fresh(rows, now));
    if Unique(ideas, rows, now) != [] {
      KeepIfMembers(ideas, Fresh(rows, now), Unique(ideas, rows, now)[0]);
    }
  }
}
