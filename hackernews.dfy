/** The Hacker News scraper, on what a page offers once fetched and parsed:
    the story rows of the front page and of the Show HN page. */
module HackerNews {
  import opened Wrappers
  import opened Text
  import opened Records
  import opened Scoring
  import opened Scraping

  const StartupKeywords: seq<string> := [
    "startup", "saas", "app", "product", "business", "entrepreneur",
    "launch", "idea", "project", "tool", "service", "platform",
    "marketplace", "api", "software", "tech", "innovation",
    "funding", "venture", "capital", "ycombinator", "accelerator",
    "show hn", "indie", "bootstrapped", "side project"]

  /** `_is_startup_related`: a keyword occurs in the lowercased
      "title content" text. */
  predicate IsStartupRelated(idea: Idea) {
    AnyOccurs(Lower(idea.title) + " " + Lower(idea.content), StartupKeywords)
  }

  /** A keyword in the title is enough. */
  lemma KeywordInTitle(idea: Idea, k: nat)
    requires k < |StartupKeywords| && Contains(Lower(idea.title), StartupKeywords[k])
    ensures IsStartupRelated(idea)
  {
    ContainsInConcat(Lower(idea.title), " " + Lower(idea.content), StartupKeywords[k]);
    assert Lower(idea.title) + " " + Lower(idea.content)
        == Lower(idea.title) + (" " + Lower(idea.content));
  }

  /** One story row as parsed: the "storylink" anchor's text and `href` (None
      when the row has none), whether a metadata row follows it, and the
      texts of the score span and the comments link when they exist. */
  datatype StoryRow = StoryRow(
    link: Option<(string, string)>,
    hasMetadata: bool,
    scoreText: Option<string>,
    commentsText: Option<string>)

  /** `_extract_idea_from_row`, with `now` the clock reading it stamps. */
  function ExtractIdeaFromRow(row: StoryRow, now: real): (r: Option<Idea>)
    ensures r.None? <==> row.link.None? || !row.hasMetadata
    ensures r.Some? ==>
      r.value.title == Strip(row.link.value.0) && r.value.url == row.link.value.1 &&
      r.value.content == "" && r.value.sourceType == "hackernews" &&
      r.value.score == CountIn(row.scoreText) && r.value.commentsCount == CountIn(row.commentsText) &&
      r.value.createdUtc == Some(now)
  {
    match row.link
    case None => None
    case Some(link) =>
      if !row.hasMetadata then None
      else Some(Idea(
        title := Strip(link.0),
        content := "",
        url := link.1,
        score := CountIn(row.scoreText),
        commentsCount := CountIn(row.commentsText),
        createdUtc := Some(now),
        sourceType := "hackernews",
        category := "",
        qualityScore := None))
  }

  /** The score is the number in the score text, e.g. 150 for "150 points". */
  lemma ExtractReadsScore(row: StoryRow, now: real, p: string, n: nat, q: string)
    requires row.link.Some? && row.hasMetadata
    requires row.scoreText == Some(p + NatToDigits(n) + q)
    requires NoDigit(p) && (q == [] || !IsDigit(q[0]))
    ensures ExtractIdeaFromRow(row, now).value.score == n
  {
    FirstNumberReadsBack(p, n, q);
  }

  /** Story rows have empty content, so they always take the short-content
      penalty: only engagement can lift them above the 2-point source bonus
      minus 2. */
  lemma StoryRowsPenalised(row: StoryRow, now: real)
    requires ExtractIdeaFromRow(row, now).Some?
    ensures var idea := ExtractIdeaFromRow(row, now).value;
      LengthBonus(|idea.content|) == -2.0 && SourceBonus(idea.sourceType) == 2.0
  {
    SourceTagBonuses();
  }

  // ---------------------------------------------------------------------------
  // Collecting rows

  /** What one front-page row contributes: its record when it has one and
      the record is startup-related. */
  function StartupRecord(now: real): StoryRow -> seq<Idea> {
    row =>
      var idea := ExtractIdeaFromRow(row, now);
      if idea.Some? && IsStartupRelated(idea.value) then [idea.value] else []
  }

  /** What one Show HN row contributes: its record, retagged, with no keyword
      filter. */
  function ShowHnRecord(now: real): StoryRow -> seq<Idea> {
    row =>
      var idea := ExtractIdeaFromRow(row, now);
      if idea.Some? then [idea.value.(sourceType := "hackernews_showhn")] else []
  }

  /** What `get_show_hn_posts(limit)` returns for a page; None is a request
      that failed, which the scraper catches. */
  function ShowHnPage(page: Option<seq<StoryRow>>, limit: nat, now: real): seq<Idea> {
    if page.None? then [] else Collect(Take(page.value, limit), ShowHnRecord(now))
  }

  /** A front-page record. */
  predicate FrontPageRecord(x: Idea) {
    IsStartupRelated(x) && x.sourceType == "hackernews" && x.content == ""
  }

  /** A Show HN record. */
  predicate ShowHnPost(x: Idea) {
    x.sourceType == "hackernews_showhn" && x.content == ""
  }

  /** Front-page results: at most one per row, each startup-related, tagged
      "hackernews" and with empty content. */
  lemma StartupRowsProperties(rows: seq<StoryRow>, now: real)
    ensures |Collect(rows, StartupRecord(now))| <= |rows|
    ensures forall x :: x in Collect(rows, StartupRecord(now)) ==> FrontPageRecord(x)
  {
    CollectLength(rows, StartupRecord(now));
    CollectAll(rows, StartupRecord(now), FrontPageRecord);
  }

  /** Show HN results: at most one per row, each retagged
      "hackernews_showhn", with empty content. */
  lemma ShowHnProperties(rows: seq<StoryRow>, now: real)
    ensures |Collect(rows, ShowHnRecord(now))| <= |rows|
    ensures forall x :: x in Collect(rows, ShowHnRecord(now)) ==> ShowHnPost(x)
  {
    CollectLength(rows, ShowHnRecord(now));
    CollectAll(rows, ShowHnRecord(now), ShowHnPost);
  }

  /** A Show HN row is kept even when it mentions no startup keyword, which
      a front-page row would not be. */
  lemma ShowHnKeepsUnrelated(row: StoryRow, now: real)
    requires ExtractIdeaFromRow(row, now).Some?
    requires !IsStartupRelated(ExtractIdeaFromRow(row, now).value)
    ensures |Collect([row], ShowHnRecord(now))| == 1
    ensures Collect([row], StartupRecord(now)) == []
  {
    assert [row][..0] == [];
  }

  /** The same Show HN rows fetched at another time give the same records,
      stamped with the other time. */
  lemma {:induction false} ShowHnRestamp(rows: seq<StoryRow>, now: real, later: real, x: Idea)
    requires x in Collect(rows, ShowHnRecord(now))
    ensures x.(createdUtc := Some(later)) in Collect(rows, ShowHnRecord(later))
  {
    var n := |rows| - 1;
    var front := Collect(rows[..n], ShowHnRecord(now));
    assert Collect(rows, ShowHnRecord(later)) == Collect(rows[..n], ShowHnRecord(later)) + ShowHnRecord(later)(rows[n]);
    if x in front {
      ShowHnRestamp(rows[..n], now, later, x);
    } else {
      assert x in ShowHnRecord(now)(rows[n]);
      var e := ExtractIdeaFromRow(rows[n], now);
      var f := ExtractIdeaFromRow(rows[n], later);
      assert f == Some(e.value.(createdUtc := Some(later)));
    }
  }

  /** `get_show_hn_posts`: the first `limit` rows of the Show HN page. */
  method GetShowHnPosts(page: Option<seq<StoryRow>>, limit: nat, now: real) returns (ideas: seq<Idea>)
    ensures ideas == ShowHnPage(page, limit, now)
  {
    ideas := [];
    if page.None? {
      return;
    }
    var rows := Take(page.value, limit);
    for i := 0 to |rows|
      invariant ideas == Collect(rows[..i], ShowHnRecord(now))
    {
      ideas := ideas + ShowHnRecord(now)(rows[i]);
      CollectStep(rows, i, ShowHnRecord(now));
    }
    assert rows[..|rows|] == rows;
  }

  /** `get_startup_ideas`: the startup-related records among the first
      `limit` front-page rows, then the Show HN posts fetched with
      `limit / 2`. A failed front-page request ends it with nothing, before
      Show HN is fetched. */
  method GetStartupIdeas(frontPage: Option<seq<StoryRow>>, showPage: Option<seq<StoryRow>>,
                         limit: nat, now: real) returns (ideas: seq<Idea>)
    ensures frontPage.None? ==> ideas == []
    ensures frontPage.Some? ==>
      ideas == Collect(Take(frontPage.value, limit), StartupRecord(now)) + ShowHnPage(showPage, limit / 2, now)
  {
    ideas := [];
    if frontPage.None? {
      return;
    }
    var rows := Take(frontPage.value, limit);
    for i := 0 to |rows|
      invariant ideas == Collect(rows[..i], StartupRecord(now))
    {
      ideas := ideas + StartupRecord(now)(rows[i]);
      CollectStep(rows, i, StartupRecord(now));
    }
    assert rows[..|rows|] == rows;
    var show := GetShowHnPosts(showPage, limit / 2, now);
    ideas := ideas + show;
  }
}
