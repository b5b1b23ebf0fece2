/** The discovery agent: collect candidates from the three sources, keep and
    rank the ones that score, drop the ones already stored, pick one and
    enrich it. Each scraper call is given by what it returned, or Raised; the
    store by a `Session`; the language model by its reply. */
module Agent {
  import opened Wrappers
  import opened Text
  import opened Records
  import opened Scoring
  import opened Sorting
  import opened Dedup
  import opened Enrichment
  import HackerNews
  import Scraping

  // ---------------------------------------------------------------------------
  // Collecting

  /** What the scraper calls of one run returned. `ibCalls` are the
      IdeaBrowser calls in the order they are made: the general listing, the
      trending listing, then one call per sampled category. */
  datatype Sources = Sources(
    ibCalls: seq<Outcome<seq<Idea>>>,
    hnStories: Outcome<seq<Idea>>,
    hnShow: Outcome<seq<Idea>>,
    ph: Outcome<seq<Idea>>)

  /** The records a call contributes: none when it raised. */
  function Yield(c: Outcome<seq<Idea>>): seq<Idea> {
    if c.Returned? then c.value else []
  }

  /** The records of a sequence of calls, in call order. */
  function Concat(cs: seq<Outcome<seq<Idea>>>): seq<Idea> {
    if cs == [] then [] else Concat(cs[..|cs| - 1]) + Yield(cs[|cs| - 1])
  }

  /** The index of the first call that raised, or the number of calls. */
  function FirstRaise(cs: seq<Outcome<seq<Idea>>>): (r: nat)
    ensures r <= |cs|
    ensures forall j :: 0 <= j < r ==> cs[j].Returned?
    ensures r < |cs| ==> cs[r].Raised?
  {
    if cs == [] then 0
    else if cs[0].Raised? then 0
    else
      var r := 1 + FirstRaise(cs[1..]);
      assert forall j :: 1 <= j < r ==> cs[1..][j - 1] == cs[j];
      r
  }

  /** The IdeaBrowser block keeps its records only when no call of it
      raised. */
  function IdeaBrowserPart(calls: seq<Outcome<seq<Idea>>>): seq<Idea> {
    if FirstRaise(calls) == |calls| then Concat(calls) else []
  }

  /** The Hacker News block adds the stories, then the Show HN posts; a raise
      in the stories call skips the Show HN call. */
  function HackerNewsPart(s: Sources): seq<Idea> {
    if s.hnStories.Raised? then [] else s.hnStories.value + Yield(s.hnShow)
  }

  /** `_collect_ideas_from_sources`. */
  function Collected(s: Sources): seq<Idea> {
    IdeaBrowserPart(s.ibCalls) + HackerNewsPart(s) + Yield(s.ph)
  }

  method CollectIdeasFromSources(s: Sources) returns (all: seq<Idea>)
    ensures all == Collected(s)
  {
    all := CollectIdeaBrowser(s.ibCalls);
    if s.hnStories.Returned? {
      all := all + s.hnStories.value;
      if s.hnShow.Returned? {
        all := all + s.hnShow.value;
      }
    }
    if s.ph.Returned? {
      all := all + s.ph.value;
    }
  }

  /** The IdeaBrowser block: the calls in order, stopping at the first that
      raises, whose records are all dropped. */
  method CollectIdeaBrowser(calls: seq<Outcome<seq<Idea>>>) returns (ideas: seq<Idea>)
    ensures ideas == IdeaBrowserPart(calls)
  {
    var ib: seq<Idea> := [];
    var i := 0;
    while i < |calls| && calls[i].Returned?
      invariant 0 <= i <= |calls|
      invariant forall j :: 0 <= j < i ==> calls[j].Returned?
      invariant ib == Concat(calls[..i])
    {
      ib := ib + calls[i].value;
      assert calls[..i + 1][..i] == calls[..i];
      i := i + 1;
    }
    FirstRaiseIs(calls, i);
    if i == |calls| {
      assert calls[..i] == calls;
      ideas := ib;
    } else {
      ideas := [];
    }
  }

  /** The first raise is at `i` when every call before `i` returned and
      call `i` (if any) raised. */
  lemma FirstRaiseIs(cs: seq<Outcome<seq<Idea>>>, i: nat)
    requires i <= |cs|
    requires forall j :: 0 <= j < i ==> cs[j].Returned?
    requires i < |cs| ==> cs[i].Raised?
    ensures FirstRaise(cs) == i
  {
  }

  lemma {:induction false} ConcatMembers(cs: seq<Outcome<seq<Idea>>>, x: Idea)
    ensures x in Concat(cs) <==> exists i :: 0 <= i < |cs| && cs[i].Returned? && x in cs[i].value
  {
    if cs != [] {
      var n := |cs| - 1;
      ConcatMembers(cs[..n], x);
      if x in Concat(cs[..n]) {
        var i :| 0 <= i < n && cs[..n][i].Returned? && x in cs[..n][i].value;
        assert cs[i] == cs[..n][i];
      }
      if exists i :: 0 <= i < |cs| && cs[i].Returned? && x in cs[i].value {
        var i :| 0 <= i < |cs| && cs[i].Returned? && x in cs[i].value;
        if i < n {
          assert cs[..n][i] == cs[i];
        }
      }
    }
  }

  /** A record is collected exactly when it came from an IdeaBrowser call and
      no IdeaBrowser call raised, or from the stories call, or from the Show
      HN call after a stories call that returned, or from Product Hunt. */
  lemma CollectedMembers(s: Sources, x: Idea)
    ensures x in Collected(s) <==>
      ((forall i :: 0 <= i < |s.ibCalls| ==> s.ibCalls[i].Returned?) &&
       (exists i :: 0 <= i < |s.ibCalls| && s.ibCalls[i].Returned? && x in s.ibCalls[i].value)) ||
      (s.hnStories.Returned? && x in s.hnStories.value) ||
      (s.hnStories.Returned? && s.hnShow.Returned? && x in s.hnShow.value) ||
      (s.ph.Returned? && x in s.ph.value)
  {
    ConcatMembers(s.ibCalls, x);
    var r := FirstRaise(s.ibCalls);
    if r < |s.ibCalls| {
      assert !s.ibCalls[r].Returned?;
    }
  }

  const StoryLimit: nat := 30
  const ShowHnLimit: nat := 15

  /** Show HN posts are collected twice: once inside the stories call, which
      fetches them with half its limit of 30 at its own time `nowStories`,
      and once by the agent's own Show HN call with its default limit of 15
      at `nowShow`. The two copies differ only in their timestamp, and the
      stories call's copy comes first. */
  lemma ShowHnCollectedTwice(s: Sources, front: seq<HackerNews.StoryRow>,
                             show: Option<seq<HackerNews.StoryRow>>, nowStories: real, nowShow: real, x: Idea)
    requires s.hnStories == Returned(
      Scraping.Collect(Take(front, StoryLimit), HackerNews.StartupRecord(nowStories)) +
      HackerNews.ShowHnPage(show, StoryLimit / 2, nowStories))
    requires s.hnShow == Returned(HackerNews.ShowHnPage(show, ShowHnLimit, nowShow))
    requires x in HackerNews.ShowHnPage(show, ShowHnLimit, nowShow)
    ensures exists i, j ::
              0 <= i < j < |Collected(s)| && Collected(s)[i] == x.(createdUtc := Some(nowStories)) && Collected(s)[j] == x
  {
    var early := HackerNews.ShowHnPage(show, ShowHnLimit, nowStories);
    assert StoryLimit / 2 == ShowHnLimit;
    HackerNews.ShowHnRestamp(Take(show.value, ShowHnLimit), nowShow, nowStories, x);
    assert x.(createdUtc := Some(nowStories)) in early;
    CollectedShape(s);
    InOrder(IdeaBrowserPart(s.ibCalls), s.hnStories.value, s.hnShow.value, Yield(s.ph),
            x.(createdUtc := Some(nowStories)), x);
  }

  lemma CollectedShape(s: Sources)
    requires s.hnStories.Returned? && s.hnShow.Returned?
    ensures Collected(s) == IdeaBrowserPart(s.ibCalls) + s.hnStories.value + s.hnShow.value + Yield(s.ph)
  {
    assert HackerNewsPart(s) == s.hnStories.value + s.hnShow.value;
  }

  lemma InOrder(pre: seq<Idea>, first: seq<Idea>, second: seq<Idea>, post: seq<Idea>, y: Idea, x: Idea)
    requires y in first && x in second
    ensures exists i, j :: 0 <= i < j < |pre + first + second + post| &&
                          (pre + first + second + post)[i] == y && (pre + first + second + post)[j] == x
  {
    var all := pre + first + second + post;
    var a :| 0 <= a < |first| && first[a] == y;
    var b :| 0 <= b < |second| && second[b] == x;
    assert all[|pre| + a] == y;
    assert all[|pre| + |first| + b] == x;
  }

  // ---------------------------------------------------------------------------
  // Filter and rank

  /** The scorer ranking uses at local time `now`. */
  function Scorer(now: real): Idea -> real {
    x => Score(x, now)
  }

  /** A candidate with its score written into it. */
  function Tagged(idea: Idea, score: Idea -> real): Idea {
    idea.(qualityScore := Some(score(idea)))
  }

  /** The sort key of ranking: the written score. */
  function QualityOf(idea: Idea): real {
    idea.qualityScore.GetOr(0.0)
  }

  /** The loop of `_filter_and_rank_ideas`: the candidates that score above
      zero, tagged, in input order. */
  function KeepPositive(ideas: seq<Idea>, score: Idea -> real): seq<Idea> {
    if ideas == [] then []
    else
      var last := ideas[|ideas| - 1];
      KeepPositive(ideas[..|ideas| - 1], score) + (if score(last) > 0.0 then [Tagged(last, score)] else [])
  }

  /** `_filter_and_rank_ideas`: the kept candidates, stably sorted by
      non-increasing score. */
  function Ranked(ideas: seq<Idea>, now: real): seq<Idea> {
    SortDesc(KeepPositive(ideas, Scorer(now)), QualityOf)
  }

  method FilterAndRank(ideas: seq<Idea>, now: real) returns (ranked: seq<Idea>)
    ensures ranked == Ranked(ideas, now)
  {
    var filtered: seq<Idea> := [];
    for i := 0 to |ideas|
      invariant filtered == KeepPositive(ideas[..i], Scorer(now))
    {
      var score := Score(ideas[i], now);
      KeepPositiveStep(ideas, i, Scorer(now));
      assert Scorer(now)(ideas[i]) == score;
      if score > 0.0 {
        filtered := filtered + [ideas[i].(qualityScore := Some(score))];
      }
    }
    assert ideas[..|ideas|] == ideas;
    var a := new Idea[|filtered|](k requires 0 <= k < |filtered| => filtered[k]);
    assert a[..] == filtered;
    SortByKeyDesc(a, QualityOf);
    ranked := a[..];
  }

  /** One more candidate: the kept list grows by its tagged copy exactly
      when it scores above zero. */
  lemma KeepPositiveStep(ideas: seq<Idea>, i: nat, score: Idea -> real)
    requires i < |ideas|
    ensures KeepPositive(ideas[..i + 1], score) ==
      KeepPositive(ideas[..i], score) + (if score(ideas[i]) > 0.0 then [Tagged(ideas[i], score)] else [])
  {
    assert ideas[..i + 1][..i] == ideas[..i];
  }

  lemma {:induction false} KeepPositiveMembers(ideas: seq<Idea>, score: Idea -> real, x: Idea)
    ensures x in KeepPositive(ideas, score) <==>
      exists i :: 0 <= i < |ideas| && score(ideas[i]) > 0.0 && x == Tagged(ideas[i], score)
  {
    if ideas != [] {
      var n := |ideas| - 1;
      var front := ideas[..n];
      var extra := if score(ideas[n]) > 0.0 then [Tagged(ideas[n], score)] else [];
      assert KeepPositive(ideas, score) == KeepPositive(front, score) + extra;
      KeepPositiveMembers(front, score, x);
      assert forall i :: 0 <= i < n ==> front[i] == ideas[i];
      if x in KeepPositive(front, score) {
        var i :| 0 <= i < n && score(front[i]) > 0.0 && x == Tagged(front[i], score);
        assert score(ideas[i]) > 0.0 && x == Tagged(ideas[i], score);
      } else if x in extra {
        assert score(ideas[n]) > 0.0 && x == Tagged(ideas[n], score);
      }
      if exists i :: 0 <= i < |ideas| && score(ideas[i]) > 0.0 && x == Tagged(ideas[i], score) {
        var i :| 0 <= i < |ideas| && score(ideas[i]) > 0.0 && x == Tagged(ideas[i], score);
        if i < n {
          assert x in KeepPositive(front, score);
        } else {
          assert i == n && extra == [x];
        }
      }
    }
  }

  /** Every kept candidate carries its own score, and that score is
      positive. */
  lemma {:induction false} KeepPositiveScores(ideas: seq<Idea>, score: Idea -> real)
    ensures |KeepPositive(ideas, score)| <= |ideas|
    ensures forall k :: 0 <= k < |KeepPositive(ideas, score)| ==>
      KeepPositive(ideas, score)[k].qualityScore.Some? &&
      KeepPositive(ideas, score)[k].qualityScore.value > 0.0
  {
    if ideas != [] {
      var n := |ideas| - 1;
      KeepPositiveScores(ideas[..n], score);
      var pre := KeepPositive(ideas[..n], score);
      var last: seq<Idea> := if score(ideas[n]) > 0.0 then [Tagged(ideas[n], score)] else [];
      var all: seq<Idea> := pre + last;
      forall k | 0 <= k < |all|
        ensures all[k].qualityScore.Some? && all[k].qualityScore.value > 0.0
      {
        if k >= |pre| {
          assert all[k] == last[k - |pre|];
        }
      }
    }
  }

  /** Ranking keeps exactly the candidates scoring above zero, each tagged
      with its score, once per occurrence in the input. */
  lemma RankedMembers(ideas: seq<Idea>, now: real, x: Idea)
    ensures multiset(Ranked(ideas, now)) == multiset(KeepPositive(ideas, Scorer(now)))
    ensures x in Ranked(ideas, now) <==>
      exists i :: 0 <= i < |ideas| && Scorer(now)(ideas[i]) > 0.0 && x == Tagged(ideas[i], Scorer(now))
  {
    var kept := KeepPositive(ideas, Scorer(now));
    SortDescPermutation(kept, QualityOf);
    KeepPositiveMembers(ideas, Scorer(now), x);
    assert x in Ranked(ideas, now) <==> x in multiset(Ranked(ideas, now));
    assert x in kept <==> x in multiset(kept);
  }

  /** Ranking orders by non-increasing score and keeps the input order among
      equal scores; every ranked candidate carries a positive score. */
  lemma RankedOrder(ideas: seq<Idea>, now: real, v: real)
    ensures SortedDesc(Ranked(ideas, now), QualityOf)
    ensures WithKey(Ranked(ideas, now), QualityOf, v) == WithKey(KeepPositive(ideas, Scorer(now)), QualityOf, v)
    ensures forall k :: 0 <= k < |Ranked(ideas, now)| ==>
      Ranked(ideas, now)[k].qualityScore.Some? && Ranked(ideas, now)[k].qualityScore.value > 0.0
  {
    var kept := KeepPositive(ideas, Scorer(now));
    SortDescSorted(kept, QualityOf);
    SortDescStable(kept, QualityOf, v);
    SortDescPermutation(kept, QualityOf);
    KeepPositiveScores(ideas, Scorer(now));
    var ranked := Ranked(ideas, now);
    forall k | 0 <= k < |ranked|
      ensures ranked[k].qualityScore.Some? && ranked[k].qualityScore.value > 0.0
    {
      assert ranked[k] in multiset(kept);
      var j :| 0 <= j < |kept| && kept[j] == ranked[k];
    }
  }

  /** Nothing is ranked when no candidate scores above zero. */
  lemma NoPositiveNothingRanked(ideas: seq<Idea>, now: real)
    requires forall i :: 0 <= i < |ideas| ==> Score(ideas[i], now) == 0.0
    ensures Ranked(ideas, now) == []
  {
    if Ranked(ideas, now) != [] {
      var x := Ranked(ideas, now)[0];
      RankedMembers(ideas, now, x);
    }
  }

  // ---------------------------------------------------------------------------
  // Selection

  predicate FromIdeaBrowser(idea: Idea) {
    Contains(idea.sourceType, "ideabrowser")
  }

  /** The comprehension of `_select_best_idea`: the IdeaBrowser candidates,
      in order. */
  function IdeaBrowserIdeas(ideas: seq<Idea>): (r: seq<Idea>)
    ensures r == [] <==> forall i :: 0 <= i < |ideas| ==> !FromIdeaBrowser(ideas[i])
    ensures r != [] ==> exists i :: 0 <= i < |ideas| && ideas[i] == r[0] && FromIdeaBrowser(ideas[i]) &&
                                    forall j :: 0 <= j < i ==> !FromIdeaBrowser(ideas[j])
  {
    if ideas == [] then []
    else
      var rest := IdeaBrowserIdeas(ideas[1..]);
      assert forall i :: 1 <= i < |ideas| ==> ideas[1..][i - 1] == ideas[i];
      (if FromIdeaBrowser(ideas[0]) then [ideas[0]] else []) + rest
  }

  /** `_select_best_idea`: None for no candidates, else the first IdeaBrowser
      candidate, else the first candidate. */
  function SelectBest(ideas: seq<Idea>): (r: Option<Idea>)
    ensures r.None? <==> ideas == []
    ensures r.Some? ==> r.value in ideas
    ensures (exists i :: 0 <= i < |ideas| && FromIdeaBrowser(ideas[i])) ==>
      r.Some? && FromIdeaBrowser(r.value) &&
      exists i :: 0 <= i < |ideas| && ideas[i] == r.value && forall j :: 0 <= j < i ==> !FromIdeaBrowser(ideas[j])
    ensures ideas != [] && (forall i :: 0 <= i < |ideas| ==> !FromIdeaBrowser(ideas[i])) ==> r == Some(ideas[0])
  {
    if ideas == [] then None
    else
      var ib := IdeaBrowserIdeas(ideas);
      if ib != [] then Some(ib[0]) else Some(ideas[0])
  }

  // ---------------------------------------------------------------------------
  // The whole run

  /** `discover_daily_idea`: None as soon as a stage comes out empty; a
      lookup error of the duplicate check propagates. */
  function Discover(s: Sources, db: Session, reply: AiReply, now: real): Outcome<Option<ProcessedIdea>> {
    var all := Collected(s);
    var ranked := Ranked(all, now);
    if all == [] || ranked == [] then Returned(None)
    else if db.failing then Raised
    else
      var unique := Unique(ranked, db.rows, now);
      if unique == [] then Returned(None)
      else Returned(ProcessIdea(SelectBest(unique).value, reply, now))
  }

  method DiscoverDailyIdea(s: Sources, db: Session, reply: AiReply, now: real)
    returns (r: Outcome<Option<ProcessedIdea>>)
    ensures r == Discover(s, db, reply, now)
  {
    var all := CollectIdeasFromSources(s);
    if all == [] {
      return Returned(None);
    }
    var filtered := FilterAndRank(all, now);
    if filtered == [] {
      return Returned(None);
    }
    var unique := CheckDuplicates(filtered, db, now);
    if unique.Raised? {
      return Raised;
    }
    if unique.value == [] {
      return Returned(None);
    }
    var best := SelectBest(unique.value);
    var processed := ProcessIdea(best.value, reply, now);
    return Returned(processed);
  }

  /** With no candidate scoring above zero there is no idea, whatever the
      store and the model do. */
  lemma NoPositiveCandidateNoIdea(s: Sources, db: Session, reply: AiReply, now: real)
    requires forall i :: 0 <= i < |Collected(s)| ==> Score(Collected(s)[i], now) == 0.0
    ensures Discover(s, db, reply, now) == Returned(None)
  {
    NoPositiveNothingRanked(Collected(s), now);
  }

  /** Something is ranked exactly when some candidate scores above zero. */
  lemma RankedNonEmpty(ideas: seq<Idea>, now: real)
    ensures Ranked(ideas, now) != [] <==> exists i :: 0 <= i < |ideas| && Score(ideas[i], now) > 0.0
  {
    if exists i :: 0 <= i < |ideas| && Score(ideas[i], now) > 0.0 {
      var i :| 0 <= i < |ideas| && Score(ideas[i], now) > 0.0;
      assert Scorer(now)(ideas[i]) > 0.0;
      RankedMembers(ideas, now, Tagged(ideas[i], Scorer(now)));
    } else {
      NoPositiveNothingRanked(ideas, now);
    }
  }

  /** The run raises exactly when the store fails and some candidate scores
      above zero. */
  lemma StoreFailureRaises(s: Sources, db: Session, reply: AiReply, now: real)
    ensures Discover(s, db, reply, now) == Raised <==>
      db.failing && exists i :: 0 <= i < |Collected(s)| && Score(Collected(s)[i], now) > 0.0
  {
    RankedNonEmpty(Collected(s), now);
  }

  /** A failed model call yields no idea. */
  lemma ModelFailureNoIdea(s: Sources, db: Session, now: real)
    ensures Discover(s, db, CallRaised, now) == Raised || Discover(s, db, CallRaised, now) == Returned(None)
  {
  }

  /** The idea of a run is that of a collected candidate that scored above
      zero and whose title was not found in the store. */
  lemma DiscoveredFromCandidate(s: Sources, db: Session, reply: AiReply, now: real, p: ProcessedIdea)
    requires Discover(s, db, reply, now) == Returned(Some(p))
    ensures exists x :: x in Collected(s) && Score(x, now) > 0.0 &&
                        !IsDuplicate(CheckedTitle(x), db.rows, now) &&
                        p.sourceUrl == x.url && p.sourceType == x.sourceType &&
                        p.publishedAt == now && p.language == "ko"
  {
    var best := DiscoverPicks(s, db, reply, now, p);
    var all := Collected(s);
    var i := SurvivorOrigin(all, db.rows, now, best);
    assert all[i] in all;
  }

  /** The candidate a run that returned an idea processed. */
  lemma DiscoverPicks(s: Sources, db: Session, reply: AiReply, now: real, p: ProcessedIdea) returns (best: Idea)
    requires Discover(s, db, reply, now) == Returned(Some(p))
    ensures !db.failing && best in Unique(Ranked(Collected(s), now), db.rows, now)
    ensures ProcessIdea(best, reply, now) == Some(p)
  {
    best := SelectBest(Unique(Ranked(Collected(s), now), db.rows, now)).value;
  }

  /** A candidate that survives ranking and the duplicate check is a
      collected idea with a positive score and a fresh title, tagged with
      that score. */
  lemma SurvivorOrigin(all: seq<Idea>, rows: seq<StoredIdea>, now: real, x: Idea) returns (i: nat)
    requires x in Unique(Ranked(all, now), rows, now)
    ensures i < |all| && Score(all[i], now) > 0.0 && !IsDuplicate(CheckedTitle(all[i]), rows, now)
    ensures x == Tagged(all[i], Scorer(now))
  {
    UniqueMembers(Ranked(all, now), rows, now, x);
    RankedMembers(all, now, x);
    i :| 0 <= i < |all| && Scorer(now)(all[i]) > 0.0 && x == Tagged(all[i], Scorer(now));
    assert CheckedTitle(x) == CheckedTitle(all[i]);
  }

  /** A stored-title-free IdeaBrowser candidate that scores above zero wins
      over every other source. */
  lemma IdeaBrowserPreferred(s: Sources, db: Session, reply: AiReply, now: real, i: nat)
    requires !db.failing
    requires i < |Collected(s)| && FromIdeaBrowser(Collected(s)[i]) && Score(Collected(s)[i], now) > 0.0
    requires !IsDuplicate(CheckedTitle(Collected(s)[i]), db.rows, now)
    ensures Discover(s, db, reply, now).Returned?
    ensures Discover(s, db, reply, now).value.Some? ==>
      Contains(Discover(s, db, reply, now).value.value.sourceType, "ideabrowser")
  {
    var unique := Unique(Ranked(Collected(s), now), db.rows, now);
    var k := SurvivorAt(Collected(s), db.rows, now, i);
    assert FromIdeaBrowser(unique[k]);
    DiscoverProcessesBest(s, db, reply, now);
  }

  /** With a working lookup and some survivor of the duplicate check, the
      run processes the candidate `select_best_idea` picks. */
  lemma DiscoverProcessesBest(s: Sources, db: Session, reply: AiReply, now: real)
    requires !db.failing && Unique(Ranked(Collected(s), now), db.rows, now) != []
    ensures Discover(s, db, reply, now) ==
      Returned(ProcessIdea(SelectBest(Unique(Ranked(Collected(s), now), db.rows, now)).value, reply, now))
  {
    UniqueShorter(Ranked(Collected(s), now), db.rows, now);
    if Collected(s) == [] {
      NoPositiveNothingRanked(Collected(s), now);
    }
  }

  /** A collected idea with a positive score and a fresh title survives
      ranking and the duplicate check, tagged with its score. */
  lemma SurvivorAt(all: seq<Idea>, rows: seq<StoredIdea>, now: real, i: nat) returns (k: nat)
    requires i < |all| && Score(all[i], now) > 0.0 && !IsDuplicate(CheckedTitle(all[i]), rows, now)
    ensures k < |Unique(Ranked(all, now), rows, now)|
    ensures Unique(Ranked(all, now), rows, now)[k] == Tagged(all[i], Scorer(now))
  {
    var x := Tagged(all[i], Scorer(now));
    assert Scorer(now)(all[i]) > 0.0;
    RankedMembers(all, now, x);
    assert CheckedTitle(x) == CheckedTitle(all[i]);
    UniqueMembers(Ranked(all, now), rows, now, x);
    k :| 0 <= k < |Unique(Ranked(all, now), rows, now)| && Unique(Ranked(all, now), rows, now)[k] == x;
  }

  // ---------------------------------------------------------------------------
  // Browsing by category

  /** The search terms the agent adds for a category. */
  function SearchTerms(category: string): (r: seq<string>)
    ensures |r| == 3 && r[0] == category
  {
    [category, category + " startup", category + " app"]
  }

  /** The agent's `get_ideas_by_category`: `calls[0]` is the scraper's
      category crawl and `calls[1 + k]` its search for `SearchTerms(category)[k]`
      with a third of the limit. Records gathered before a raise are kept. */
  method IdeasByCategory(category: string, calls: seq<Outcome<seq<Idea>>>) returns (ideas: seq<Idea>)
    requires |calls| == 1 + |SearchTerms(category)|
    ensures ideas == Concat(calls[..FirstRaise(calls)])
  {
    ideas := [];
    var i := 0;
    while i < |calls| && calls[i].Returned?
      invariant 0 <= i <= |calls|
      invariant forall j :: 0 <= j < i ==> calls[j].Returned?
      invariant ideas == Concat(calls[..i])
    {
      ideas := ideas + calls[i].value;
      assert calls[..i + 1][..i] == calls[..i];
      i := i + 1;
    }
  }

  /** Unlike the IdeaBrowser block of a run, which drops everything when one
      call raises, browsing by category keeps what came before the raise. */
  lemma PartialResultsKept(calls: seq<Outcome<seq<Idea>>>, k: nat)
    requires k < |calls| && calls[k].Raised?
    requires forall j :: 0 <= j < k ==> calls[j].Returned?
    ensures Concat(calls[..FirstRaise(calls)]) == Concat(calls[..k])
    ensures IdeaBrowserPart(calls) == []
  {
  }
}
