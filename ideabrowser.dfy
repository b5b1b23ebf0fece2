/** The IdeaBrowser scraper, on what a page offers once fetched and parsed.
    A page answers each container selector with the containers it matches; a
    container answers each of its field selectors with the text of the first
    element that selector matches, or None. */
module IdeaBrowser {
  import opened Wrappers
  import opened Text
  import opened Records
  import opened Scraping

  const BaseUrl: string := "https://www.ideabrowser.com"

  /** The container selectors the home page is searched with, in order. */
  const HomeSelectors: seq<string> := [
    "article", ".idea-card", ".card", ".post", ".item",
    "[class*=\"idea\"]", "[class*=\"card\"]", "[class*=\"post\"]"]

  /** The container selectors of the category, search and trending pages. */
  const ListSelectors: seq<string> := ["article", ".idea-card", ".card", ".post", ".item"]

  /** The field selectors of a container, each list tried in order. */
  const TitleSelectors: seq<string> :=
    ["h1", "h2", "h3", "h4", "h5", "h6", ".title", ".heading", "[class*=\"title\"]"]
  const ContentSelectors: seq<string> :=
    ["p", ".content", ".description", ".summary", "[class*=\"content\"]", "[class*=\"desc\"]"]
  const CategorySelectors: seq<string> :=
    [".category", ".tag", ".label", "[class*=\"category\"]", "[class*=\"tag\"]"]

  const StartupKeywords: seq<string> := [
    "startup", "saas", "app", "product", "business", "entrepreneur",
    "launch", "idea", "project", "tool", "service", "platform",
    "marketplace", "api", "software", "tech", "innovation",
    "funding", "venture", "capital", "accelerator", "incubator",
    "side hustle", "indie", "bootstrapped", "mvp", "prototype",
    "revenue", "profit", "customer", "user", "growth", "scale"]

  /** `_is_startup_related`: a keyword occurs in the lowercased
      "title content category" text. */
  predicate IsStartupRelated(idea: Idea) {
    AnyOccurs(Lower(idea.title) + " " + Lower(idea.content) + " " + Lower(idea.category), StartupKeywords)
  }

  /** A keyword in the category alone is enough. */
  lemma KeywordInCategory(idea: Idea, k: nat)
    requires k < |StartupKeywords| && Contains(Lower(idea.category), StartupKeywords[k])
    ensures IsStartupRelated(idea)
  {
    ContainsInConcat(Lower(idea.title) + " " + Lower(idea.content) + " ", Lower(idea.category), StartupKeywords[k]);
  }

  /** One container: per title, content and category selector, the raw text
      of the first element it matches, and the `href` of the container's
      first anchor ("" for an anchor without one). */
  datatype Container = Container(
    titleHits: seq<Option<string>>,
    contentHits: seq<Option<string>>,
    href: Option<string>,
    categoryHits: seq<Option<string>>)

  // ---------------------------------------------------------------------------
  // Field selection

  /** The title and category loops: the stripped text of the first selector
      that matched, "" when none did. */
  function FirstHit(hits: seq<Option<string>>): string {
    if hits == [] then ""
    else if hits[0].Some? then Strip(hits[0].value)
    else FirstHit(hits[1..])
  }

  lemma {:induction false} FirstHitNone(hits: seq<Option<string>>)
    requires forall i :: 0 <= i < |hits| ==> hits[i].None?
    ensures FirstHit(hits) == ""
  {
    if hits != [] {
      FirstHitNone(hits[1..]);
    }
  }

  lemma {:induction false} FirstHitAt(hits: seq<Option<string>>, i: nat)
    requires i < |hits| && hits[i].Some?
    requires forall j :: 0 <= j < i ==> hits[j].None?
    ensures FirstHit(hits) == Strip(hits[i].value)
  {
    if i > 0 {
      FirstHitAt(hits[1..], i - 1);
    }
  }

  method FindFirstHit(hits: seq<Option<string>>) returns (text: string)
    ensures text == FirstHit(hits)
  {
    var i := 0;
    while i < |hits| && hits[i].None?
      invariant 0 <= i <= |hits|
      invariant forall j :: 0 <= j < i ==> hits[j].None?
    {
      i := i + 1;
    }
    if i < |hits| {
      text := Strip(hits[i].value);
      FirstHitAt(hits, i);
    } else {
      text := "";
      FirstHitNone(hits);
    }
  }

  /** The content loop from some selector on, holding the text `current`
      taken so far: each matching selector replaces the text, and the loop
      stops at the first stripped text longer than 20 characters. */
  function ContentFrom(hits: seq<Option<string>>, current: string): string {
    if hits == [] then current
    else if hits[0].Some? && |Strip(hits[0].value)| > 20 then Strip(hits[0].value)
    else ContentFrom(hits[1..], if hits[0].Some? then Strip(hits[0].value) else current)
  }

  /** The content is the text held at the start or that of a selector that
      matched. */
  lemma {:induction false} ContentIsSomeHit(hits: seq<Option<string>>, current: string)
    ensures var r := ContentFrom(hits, current);
      r == current || exists i :: 0 <= i < |hits| && hits[i].Some? && r == Strip(hits[i].value)
  {
    if hits != [] && !(hits[0].Some? && |Strip(hits[0].value)| > 20) {
      var next := if hits[0].Some? then Strip(hits[0].value) else current;
      ContentIsSomeHit(hits[1..], next);
      var r := ContentFrom(hits[1..], next);
      if r != next {
        var i :| 0 <= i < |hits[1..]| && hits[1..][i].Some? && r == Strip(hits[1..][i].value);
        assert hits[1..][i] == hits[i + 1];
      }
    }
  }

  /** The content of a container. */
  function PickContent(hits: seq<Option<string>>): string {
    ContentFrom(hits, "")
  }

  predicate LongHit(h: Option<string>) {
    h.Some? && |Strip(h.value)| > 20
  }

  /** The first selector whose text is longer than 20 characters wins. */
  lemma {:induction false} ContentTakesFirstLong(hits: seq<Option<string>>, current: string, i: nat)
    requires i < |hits| && LongHit(hits[i])
    requires forall j :: 0 <= j < i ==> !LongHit(hits[j])
    ensures ContentFrom(hits, current) == Strip(hits[i].value)
  {
    if i > 0 {
      var next := if hits[0].Some? then Strip(hits[0].value) else current;
      assert !LongHit(hits[0]);
      ContentTakesFirstLong(hits[1..], next, i - 1);
    }
  }

  lemma {:induction false} ContentNoHit(hits: seq<Option<string>>, current: string)
    requires forall j :: 0 <= j < |hits| ==> hits[j].None?
    ensures ContentFrom(hits, current) == current
  {
    if hits != [] {
      ContentNoHit(hits[1..], current);
    }
  }

  /** Without a long text, the last selector that matched wins, even when an
      earlier one matched with a longer text. */
  lemma {:induction false} ContentTakesLastShort(hits: seq<Option<string>>, current: string, i: nat)
    requires i < |hits| && hits[i].Some?
    requires forall j :: 0 <= j < |hits| ==> !LongHit(hits[j])
    requires forall j :: i < j < |hits| ==> hits[j].None?
    ensures ContentFrom(hits, current) == Strip(hits[i].value)
  {
    assert !LongHit(hits[0]);
    if i == 0 {
      ContentNoHit(hits[1..], Strip(hits[0].value));
    } else {
      var next := if hits[0].Some? then Strip(hits[0].value) else current;
      ContentTakesLastShort(hits[1..], next, i - 1);
    }
  }

  method FindContent(hits: seq<Option<string>>) returns (content: string)
    ensures content == PickContent(hits)
  {
    content := "";
    var i := 0;
    while i < |hits|
      invariant 0 <= i <= |hits|
      invariant ContentFrom(hits[i..], content) == PickContent(hits)
    {
      assert hits[i..][0] == hits[i];
      assert hits[i..][1..] == hits[i + 1..];
      if hits[i].Some? {
        content := Strip(hits[i].value);
        if |content| > 20 {
          break;
        }
      }
      i := i + 1;
    }
  }

  // ---------------------------------------------------------------------------
  // Extraction

  /** `_extract_idea_from_container`: a record only when both the title and
      the content are non-empty. */
  function ExtractIdea(c: Container, now: real): (r: Option<Idea>)
    ensures r.Some? <==> FirstHit(c.titleHits) != "" && PickContent(c.contentHits) != ""
    ensures r.Some? ==>
      r.value.title == FirstHit(c.titleHits) && r.value.content == PickContent(c.contentHits) &&
      r.value.category == FirstHit(c.categoryHits) &&
      r.value.url == RecordUrl(BaseUrl, c.href.GetOr("")) &&
      r.value.score == 0 && r.value.commentsCount == 0 && r.value.sourceType == "ideabrowser" &&
      r.value.createdUtc == Some(now)
  {
    var title := FirstHit(c.titleHits);
    var content := PickContent(c.contentHits);
    if title != "" && content != "" then
      Some(Idea(
        title := title,
        content := content,
        url := RecordUrl(BaseUrl, c.href.GetOr("")),
        score := 0,
        commentsCount := 0,
        createdUtc := Some(now),
        sourceType := "ideabrowser",
        category := FirstHit(c.categoryHits),
        qualityScore := None))
    else None
  }

  method ExtractIdeaFromContainer(c: Container, now: real) returns (idea: Option<Idea>)
    ensures idea == ExtractIdea(c, now)
  {
    var title := FindFirstHit(c.titleHits);
    var content := FindContent(c.contentHits);
    var category := FindFirstHit(c.categoryHits);
    if title != "" && content != "" {
      idea := Some(Idea(title, content, RecordUrl(BaseUrl, c.href.GetOr("")), 0, 0, Some(now),
                        "ideabrowser", category, None));
    } else {
      idea := None;
    }
  }

  // ---------------------------------------------------------------------------
  // Collecting containers

  /** What one container contributes: its record when it has one and the
      record is startup-related. */
  function ContainerRecord(now: real): Container -> seq<Idea> {
    c =>
      var idea := ExtractIdea(c, now);
      if idea.Some? && IsStartupRelated(idea.value) then [idea.value] else []
  }

  /** The records an IdeaBrowser page yields. */
  predicate IdeaRecord(x: Idea) {
    IsStartupRelated(x) && x.sourceType == "ideabrowser" &&
    x.title != "" && x.content != "" && x.score == 0 && x.commentsCount == 0
  }

  /** Collected ideas are startup-related, tagged "ideabrowser", with a title
      and content and no engagement counts; at most one per container. */
  lemma CollectedIdeas(cs: seq<Container>, now: real)
    ensures |Collect(cs, ContainerRecord(now))| <= |cs|
    ensures forall x :: x in Collect(cs, ContainerRecord(now)) ==> IdeaRecord(x)
  {
    CollectLength(cs, ContainerRecord(now));
    CollectAll(cs, ContainerRecord(now), IdeaRecord);
  }

  /** The startup-related records of the first `limit` containers. */
  method CollectContainers(cs: seq<Container>, limit: nat, now: real) returns (ideas: seq<Idea>)
    ensures ideas == Collect(Take(cs, limit), ContainerRecord(now))
  {
    ideas := [];
    var todo := Take(cs, limit);
    for i := 0 to |todo|
      invariant ideas == Collect(todo[..i], ContainerRecord(now))
    {
      CollectStep(todo, i, ContainerRecord(now));
      var idea := ExtractIdeaFromContainer(todo[i], now);
      if idea.Some? && IsStartupRelated(idea.value) {
        ideas := ideas + [idea.value];
      }
    }
    assert todo[..|todo|] == todo;
  }

  // ---------------------------------------------------------------------------
  // Choosing the containers of a page

  /** The containers of the first selector that matched any. */
  function FirstNonEmpty(bySelector: seq<seq<Container>>): (r: seq<Container>)
    ensures r == [] <==> forall i :: 0 <= i < |bySelector| ==> bySelector[i] == []
    ensures forall i ::
      (0 <= i < |bySelector| && bySelector[i] != [] && (forall j :: 0 <= j < i ==> bySelector[j] == []))
      ==> r == bySelector[i]
  {
    if bySelector == [] then []
    else if bySelector[0] != [] then bySelector[0]
    else
      var r := FirstNonEmpty(bySelector[1..]);
      assert r == [] ==> forall i :: 0 <= i < |bySelector| ==> bySelector[i] == [] by {
        if r == [] {
          forall i | 1 <= i < |bySelector|
            ensures bySelector[i] == []
          {
            assert bySelector[1..][i - 1] == bySelector[i];
          }
        }
      }
      r
  }

  method SelectContainers(bySelector: seq<seq<Container>>) returns (containers: seq<Container>)
    ensures containers == FirstNonEmpty(bySelector)
  {
    containers := [];
    var i := 0;
    while i < |bySelector|
      invariant 0 <= i <= |bySelector|
      invariant forall j :: 0 <= j < i ==> bySelector[j] == []
    {
      if bySelector[i] != [] {
        containers := bySelector[i];
        break;
      }
      i := i + 1;
    }
  }

  /** The home page: the containers each home selector matches, and the divs
      found by the text fallback. */
  datatype HomePage = HomePage(bySelector: seq<seq<Container>>, textFallback: seq<Container>)

  /** The text fallback is used only when no selector matched. */
  function HomeContainers(page: HomePage): seq<Container> {
    var found := FirstNonEmpty(page.bySelector);
    if found != [] then found else page.textFallback
  }

  /** `get_startup_ideas`; None is a failed request, caught by the scraper. */
  method GetStartupIdeas(page: Option<HomePage>, limit: nat, now: real) returns (ideas: seq<Idea>)
    ensures page.None? ==> ideas == []
    ensures page.Some? ==> ideas == Collect(Take(HomeContainers(page.value), limit), ContainerRecord(now))
  {
    if page.None? {
      return [];
    }
    var containers := SelectContainers(page.value.bySelector);
    if containers == [] {
      containers := page.value.textFallback;
    }
    ideas := CollectContainers(containers, limit, now);
  }

  // ---------------------------------------------------------------------------
  // Crawls over several URLs

  /** A crawl over several pages, taking at most `quota` containers from
      each page answered with status 200. A page is None when its request
      failed or its status was another. */
  function CrawlFrom(pages: seq<Option<seq<seq<Container>>>>, quota: nat, now: real): seq<Idea> {
    if pages == [] then []
    else
      var last := pages[|pages| - 1];
      CrawlFrom(pages[..|pages| - 1], quota, now)
        + (if last.Some? then Collect(Take(FirstNonEmpty(last.value), quota), ContainerRecord(now)) else [])
  }

  lemma {:induction false} CrawlQuota(pages: seq<Option<seq<seq<Container>>>>, quota: nat, now: real)
    ensures |CrawlFrom(pages, quota, now)| <= |pages| * quota
  {
    if pages != [] {
      var n := |pages| - 1;
      CrawlQuota(pages[..n], quota, now);
      var last := pages[n];
      var extra: seq<Idea> :=
        if last.Some? then Collect(Take(FirstNonEmpty(last.value), quota), ContainerRecord(now)) else [];
      if last.Some? {
        CollectedIdeas(Take(FirstNonEmpty(last.value), quota), now);
      }
      assert |extra| <= quota;
      assert CrawlFrom(pages, quota, now) == CrawlFrom(pages[..n], quota, now) + extra;
      MulStep(n, quota);
    }
  }

  method Crawl(pages: seq<Option<seq<seq<Container>>>>, quota: nat, now: real) returns (ideas: seq<Idea>)
    ensures ideas == CrawlFrom(pages, quota, now)
  {
    ideas := [];
    for i := 0 to |pages|
      invariant ideas == CrawlFrom(pages[..i], quota, now)
    {
      if pages[i].Some? {
        var containers := SelectContainers(pages[i].value);
        var found := CollectContainers(containers, quota, now);
        ideas := ideas + found;
      }
      assert pages[..i + 1][..i] == pages[..i];
    }
    assert pages[..|pages|] == pages;
  }

  function CategoryUrls(category: string): (r: seq<string>)
    ensures |r| == 4
  {
    [BaseUrl + "/category/" + category, BaseUrl + "/tag/" + category,
     BaseUrl + "/" + category, BaseUrl + "/ideas/" + category]
  }

  function SearchUrls(query: string): (r: seq<string>)
    ensures |r| == 3
  {
    [BaseUrl + "/search?q=" + query, BaseUrl + "/search/" + query,
     BaseUrl + "/ideas/search?q=" + query]
  }

  const TrendingUrls: seq<string> :=
    [BaseUrl + "/trending", BaseUrl + "/popular", BaseUrl + "/hot", BaseUrl + "/featured"]

  /** `get_ideas_by_category`: `pages[k]` is what `CategoryUrls(category)[k]`
      answered; at most `limit / 4` containers per page. */
  method GetIdeasByCategory(category: string, pages: seq<Option<seq<seq<Container>>>>, limit: nat, now: real)
    returns (ideas: seq<Idea>)
    requires |pages| == |CategoryUrls(category)|
    ensures ideas == CrawlFrom(pages, limit / 4, now)
    ensures |ideas| <= limit
  {
    ideas := Crawl(pages, limit / |CategoryUrls(category)|, now);
    CrawlQuota(pages, limit / 4, now);
  }

  /** `search_ideas`: `pages[k]` is what `SearchUrls(query)[k]` answered; at
      most `limit / 3` containers per page. */
  method SearchIdeas(query: string, pages: seq<Option<seq<seq<Container>>>>, limit: nat, now: real)
    returns (ideas: seq<Idea>)
    requires |pages| == |SearchUrls(query)|
    ensures ideas == CrawlFrom(pages, limit / 3, now)
    ensures |ideas| <= limit
  {
    ideas := Crawl(pages, limit / |SearchUrls(query)|, now);
    CrawlQuota(pages, limit / 3, now);
  }

  /** `get_trending_ideas`: `pages[k]` is what `TrendingUrls[k]` answered; at
      most `limit / 4` containers per page. */
  method GetTrendingIdeas(pages: seq<Option<seq<seq<Container>>>>, limit: nat, now: real)
    returns (ideas: seq<Idea>)
    requires |pages| == |TrendingUrls|
    ensures ideas == CrawlFrom(pages, limit / 4, now)
    ensures |ideas| <= limit
  {
    ideas := Crawl(pages, limit / |TrendingUrls|, now);
    CrawlQuota(pages, limit / 4, now);
  }
}
