/** The Product Hunt scraper, on what a page offers once fetched and parsed:
    the product containers and, per container, the texts and link found in
    it. */
module ProductHunt {
  import opened Wrappers
  import opened Text
  import opened Records
  import opened Scraping

  const BaseUrl: string := "https://www.producthunt.com"

  /** The pages the trending crawl visits, relative to the base URL. */
  const TrendingPaths: seq<string> := ["/trending", "/popular", "/top"]

  const StartupKeywords: seq<string> := [
    "saas", "app", "tool", "platform", "service", "software",
    "business", "productivity", "automation", "api", "integration",
    "analytics", "marketing", "sales", "crm", "project management",
    "collaboration", "communication", "workflow", "dashboard",
    "startup", "product", "launch", "beta", "alpha"]

  /** `_is_startup_related`: a keyword occurs in the lowercased
      "title content" text. */
  predicate IsStartupRelated(idea: Idea) {
    AnyOccurs(Lower(idea.title) + " " + Lower(idea.content), StartupKeywords)
  }

  /** A keyword in the content is enough. */
  lemma KeywordInContent(idea: Idea, k: nat)
    requires k < |StartupKeywords| && Contains(Lower(idea.content), StartupKeywords[k])
    ensures IsStartupRelated(idea)
  {
    ContainsInConcat(Lower(idea.title) + " ", Lower(idea.content), StartupKeywords[k]);
  }

  /** One product container as parsed: the text of its first heading, of its
      description or tagline element, the `href` of its first anchor ("" for
      an anchor without one), and the texts of its vote and comment
      elements; None where the element is missing. */
  datatype Container = Container(
    heading: Option<string>,
    description: Option<string>,
    href: Option<string>,
    voteText: Option<string>,
    commentText: Option<string>)

  /** `_extract_idea_from_container`: a record only when both the title and
      the description are non-empty after stripping. */
  function ExtractIdeaFromContainer(c: Container, now: real): (r: Option<Idea>)
    ensures r.Some? <==> Strip(c.heading.GetOr("")) != "" && Strip(c.description.GetOr("")) != ""
    ensures r.Some? ==>
      r.value.title == Strip(c.heading.GetOr("")) &&
      r.value.content == Strip(c.description.GetOr("")) &&
      r.value.url == RecordUrl(BaseUrl, c.href.GetOr("")) &&
      r.value.sourceType == "producthunt" && r.value.createdUtc == Some(now) &&
      r.value.score == CountIn(c.voteText) && r.value.commentsCount == CountIn(c.commentText)
  {
    var title := Strip(c.heading.GetOr(""));
    var description := Strip(c.description.GetOr(""));
    if title != "" && description != "" then
      Some(Idea(
        title := title,
        content := description,
        url := RecordUrl(BaseUrl, c.href.GetOr("")),
        score := CountIn(c.voteText),
        commentsCount := CountIn(c.commentText),
        createdUtc := Some(now),
        sourceType := "producthunt",
        category := "",
        qualityScore := None))
    else None
  }

  /** Every product record links to an absolute URL. */
  lemma RecordsLinkAbsolute(c: Container, now: real)
    requires ExtractIdeaFromContainer(c, now).Some?
    ensures StartsWith(ExtractIdeaFromContainer(c, now).value.url, "http")
  {
    BaseUrlIsHttp();
    RecordUrlAbsolute(BaseUrl, c.href.GetOr(""));
  }

  lemma BaseUrlIsHttp()
    ensures StartsWith(BaseUrl, "http")
  {
    assert BaseUrl[..4] == "http";
  }

  // ---------------------------------------------------------------------------
  // Collecting containers

  /** What one container contributes: its record when it has one and the
      record is startup-related. */
  function ContainerRecord(now: real): Container -> seq<Idea> {
    c =>
      var idea := ExtractIdeaFromContainer(c, now);
      if idea.Some? && IsStartupRelated(idea.value) then [idea.value] else []
  }

  /** The records a product page yields. */
  predicate ProductRecord(x: Idea) {
    IsStartupRelated(x) && x.sourceType == "producthunt" &&
    x.title != "" && x.content != "" && StartsWith(x.url, "http")
  }

  /** Collected products are startup-related, tagged "producthunt", with a
      title, a description and an absolute link; at most one per
      container. */
  lemma CollectedProducts(cs: seq<Container>, now: real)
    ensures |Collect(cs, ContainerRecord(now))| <= |cs|
    ensures forall x :: x in Collect(cs, ContainerRecord(now)) ==> ProductRecord(x)
  {
    forall c, x | x in ContainerRecord(now)(c)
      ensures ProductRecord(x)
    {
      RecordsLinkAbsolute(c, now);
    }
    CollectLength(cs, ContainerRecord(now));
    CollectAll(cs, ContainerRecord(now), ProductRecord);
  }

  /** The startup-related records of the first `limit` containers. */
  method CollectContainers(cs: seq<Container>, limit: nat, now: real) returns (ideas: seq<Idea>)
    ensures ideas == Collect(Take(cs, limit), ContainerRecord(now))
  {
    ideas := [];
    var todo := Take(cs, limit);
    for i := 0 to |todo|
      invariant ideas == Collect(todo[..i], ContainerRecord(now))
    {
      CollectStep(todo, i, ContainerRecord(now));
      ideas := ideas + ContainerRecord(now)(todo[i]);
    }
    assert todo[..|todo|] == todo;
  }

  /** The "today" page: the containers whose class names a product, item,
      card or post, and the divs found by the text fallback. */
  datatype TodayPage = TodayPage(classMatches: seq<Container>, textFallback: seq<Container>)

  /** The text fallback is used only when no container matched by class. */
  function TodayContainers(page: TodayPage): seq<Container> {
    if page.classMatches != [] then page.classMatches else page.textFallback
  }

  /** `get_today_products`; None is a failed request, caught by the scraper. */
  method GetTodayProducts(page: Option<TodayPage>, limit: nat, now: real) returns (ideas: seq<Idea>)
    ensures page.None? ==> ideas == []
    ensures page.Some? ==> ideas == Collect(Take(TodayContainers(page.value), limit), ContainerRecord(now))
  {
    if page.None? {
      return [];
    }
    ideas := CollectContainers(TodayContainers(page.value), limit, now);
  }

  /** `search_products`; None is a failed request or a status other than
      200. */
  method SearchProducts(page: Option<seq<Container>>, limit: nat, now: real) returns (ideas: seq<Idea>)
    ensures page.None? ==> ideas == []
    ensures page.Some? ==> ideas == Collect(Take(page.value, limit), ContainerRecord(now))
  {
    if page.None? {
      return [];
    }
    ideas := CollectContainers(page.value, limit, now);
  }

  /** The trending crawl over its pages, taking at most `quota` containers
      from each page that was fetched. */
  function TrendingFrom(pages: seq<Option<seq<Container>>>, quota: nat, now: real): seq<Idea> {
    if pages == [] then []
    else
      var last := pages[|pages| - 1];
      TrendingFrom(pages[..|pages| - 1], quota, now)
        + (if last.Some? then Collect(Take(last.value, quota), ContainerRecord(now)) else [])
  }

  lemma {:induction false} TrendingQuota(pages: seq<Option<seq<Container>>>, quota: nat, now: real)
    ensures |TrendingFrom(pages, quota, now)| <= |pages| * quota
  {
    if pages != [] {
      var n := |pages| - 1;
      TrendingQuota(pages[..n], quota, now);
      var last := pages[n];
      var extra: seq<Idea> := if last.Some? then Collect(Take(last.value, quota), ContainerRecord(now)) else [];
      if last.Some? {
        CollectedProducts(Take(last.value, quota), now);
      }
      assert |extra| <= quota;
      assert TrendingFrom(pages, quota, now) == TrendingFrom(pages[..n], quota, now) + extra;
      MulStep(n, quota);
    }
  }

  /** `get_trending_products`: at most `limit / 3` containers from each of
      the three trending pages, so never more than `limit` records. A page
      whose request failed contributes nothing. */
  method GetTrendingProducts(pages: seq<Option<seq<Container>>>, limit: nat, now: real)
    returns (ideas: seq<Idea>)
    requires |pages| == |TrendingPaths|
    ensures ideas == TrendingFrom(pages, limit / |TrendingPaths|, now)
    ensures |ideas| <= limit
  {
    var quota := limit / |TrendingPaths|;
    ideas := [];
    for i := 0 to |pages|
      invariant ideas == TrendingFrom(pages[..i], quota, now)
    {
      if pages[i].Some? {
        var found := CollectContainers(pages[i].value, quota, now);
        ideas := ideas + found;
      }
      assert pages[..i + 1][..i] == pages[..i];
    }
    assert pages[..|pages|] == pages;
    TrendingQuota(pages, quota, now);
  }

  // ---------------------------------------------------------------------------
  // Product details

  /** A product page: the text of its first heading, of its description
      element and of its content element, None where missing. */
  datatype DetailPage = DetailPage(heading: Option<string>, description: Option<string>, content: Option<string>)

  /** The detail content: description and content, each stripped, joined by
      a blank line, and stripped again. */
  function DetailContent(page: DetailPage): string {
    Strip(Strip(page.description.GetOr("")) + "\n\n" + Strip(page.content.GetOr("")))
  }

  /** `get_product_details`: a record when the title and the joined content
      are both non-empty. */
  function GetProductDetails(page: Option<DetailPage>, url: string, now: real): (r: Option<Idea>)
    ensures r.Some? <==>
      page.Some? && Strip(page.value.heading.GetOr("")) != "" && DetailContent(page.value) != ""
    ensures r.Some? ==>
      r.value.title == Strip(page.value.heading.GetOr("")) &&
      r.value.content == DetailContent(page.value) && r.value.url == url &&
      r.value.score == 0 && r.value.commentsCount == 0 && r.value.sourceType == "producthunt" &&
      r.value.createdUtc == Some(now)
  {
    match page
    case None => None
    case Some(p) =>
      var title := Strip(p.heading.GetOr(""));
      var full := DetailContent(p);
      if title != "" && full != "" then
        Some(Idea(title, full, url, 0, 0, Some(now), "producthunt", "", None))
      else None
  }

  /** The joined content: both parts with a blank line between them when both
      are present, the one present part otherwise, and "" when neither is. */
  lemma DetailJoin(d: string, c: string)
    requires IsStripped(d) && IsStripped(c)
    ensures d != "" && c != "" ==> Strip(d + "\n\n" + c) == d + "\n\n" + c
    ensures d == "" ==> Strip(d + "\n\n" + c) == c
    ensures c == "" ==> Strip(d + "\n\n" + c) == d
  {
    var s := d + "\n\n" + c;
    if d != "" && c != "" {
      assert s[0] == d[0];
      assert s[|s| - 1] == c[|c| - 1];
      StripFixpoint(s);
    }
    if d == "" {
      assert s == "\n\n" + c;
      StripLeftSkipsSpaces("\n\n", c);
      StripFixpoint(c);
    }
    if c == "" {
      assert s == d + "\n\n";
      StripRightSkipsSpaces(d, "\n\n");
      StripFixpoint(d);
      if d != "" {
        assert s[0] == d[0];
      } else {
        StripLeftSkipsSpaces("\n\n", "");
        assert "\n\n" + "" == s;
      }
    }
  }

  /** Hence the joined content is empty exactly when both parts are. */
  lemma DetailContentEmpty(page: DetailPage)
    ensures DetailContent(page) == "" <==>
      Strip(page.description.GetOr("")) == "" && Strip(page.content.GetOr("")) == ""
  {
    var d := Strip(page.description.GetOr(""));
    var c := Strip(page.content.GetOr(""));
    StripShape(page.description.GetOr(""));
    StripShape(page.content.GetOr(""));
    DetailJoin(d, c);
  }
}
