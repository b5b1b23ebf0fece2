/** The quality score the discovery agent gives a scraped candidate: a sum of
    capped, guarded bonuses, clamped at zero. */
module Scoring {
  import opened Wrappers
  import opened Text
  import opened Records

  /** The agent's category taxonomy, in declaration order. */
  const Taxonomy: seq<string> := [
    "saas", "mobile-app", "web-app", "ecommerce", "fintech",
    "healthtech", "edtech", "ai-ml", "blockchain", "social",
    "productivity", "marketing", "analytics", "automation",
    "marketplace", "subscription", "freemium", "b2b", "b2c"]

  /** Words that mark a candidate as close to a real launch. */
  const QualityKeywords: seq<string> :=
    ["mvp", "prototype", "launch", "beta", "alpha", "funding", "revenue"]

  function Min(a: real, b: real): real {
    if a <= b then a else b
  }

  /** Upvotes: a hundredth of the score, capped at 5, only for a positive
      score. */
  function EngagementBonus(score: int): (r: real)
    ensures 0.0 <= r <= 5.0
    ensures r == 0.0 <==> score <= 0
    ensures 0 < score <= 500 ==> r == score as real / 100.0
    ensures score >= 500 ==> r == 5.0
  {
    if score > 0 then Min(score as real / 100.0, 5.0) else 0.0
  }

  /** Comments: a tenth of the count, capped at 3, only for a positive
      count. */
  function CommentBonus(count: int): (r: real)
    ensures 0.0 <= r <= 3.0
    ensures r == 0.0 <==> count <= 0
    ensures 0 < count <= 30 ==> r == count as real / 10.0
    ensures count >= 30 ==> r == 3.0
  {
    if count > 0 then Min(count as real / 10.0, 3.0) else 0.0
  }

  /** The source bonus: the first of "ideabrowser", "showhn", "producthunt",
      "hackernews" found in the tag decides it. */
  function SourceBonus(sourceType: string): (r: real)
    ensures r == 0.0 || r == 2.0 || r == 2.5 || r == 3.0 || r == 4.0
    ensures r == 4.0 <==> Contains(sourceType, "ideabrowser")
    ensures r == 3.0 <==> !Contains(sourceType, "ideabrowser") && Contains(sourceType, "showhn")
    ensures r == 0.0 <==>
      !Contains(sourceType, "ideabrowser") && !Contains(sourceType, "showhn") &&
      !Contains(sourceType, "producthunt") && !Contains(sourceType, "hackernews")
  {
    if Contains(sourceType, "ideabrowser") then 4.0
    else if Contains(sourceType, "showhn") then 3.0
    else if Contains(sourceType, "producthunt") then 2.5
    else if Contains(sourceType, "hackernews") then 2.0
    else 0.0
  }

  /** +1.5, once, when the lowercased category contains a taxonomy entry. */
  function CategoryBonus(category: string): (r: real)
    ensures r == 0.0 || r == 1.5
    ensures r == 1.5 <==> AnyOccurs(Lower(category), Taxonomy)
  {
    var c := Lower(category);
    if c != [] && AnyOccurs(c, Taxonomy) then 1.5 else 0.0
  }

  /** +1 when the record carries a non-zero creation time less than a day
      before `now`. */
  function RecencyBonus(createdUtc: Option<real>, now: real): (r: real)
    ensures r == 0.0 || r == 1.0
    ensures r == 1.0 <==>
      createdUtc.Some? && createdUtc.value != 0.0 && now - createdUtc.value < Day
  {
    match createdUtc
    case Some(t) => if t != 0.0 && now - t < Day then 1.0 else 0.0
    case None => 0.0
  }

  /** The content-length band. The band above 500 characters sits behind the
      band above 200, so it is never reached. */
  function LengthBonus(length: nat): (r: real)
    ensures r == -2.0 <==> length < 50
    ensures r == 0.0 <==> 50 <= length <= 200
    ensures r == 1.5 <==> length > 200
    ensures r != 2.0
  {
    if length < 50 then -2.0
    else if length > 200 then 1.5
    else if length > 500 then 2.0
    else 0.0
  }

  /** +1, once, when the lowercased "title content" text holds a quality
      keyword. */
  function KeywordBonus(title: string, content: string): (r: real)
    ensures r == 0.0 || r == 1.0
    ensures r == 1.0 <==> AnyOccurs(Lower(title + " " + content), QualityKeywords)
  {
    if AnyOccurs(Lower(title + " " + content), QualityKeywords) then 1.0 else 0.0
  }

  /** The sum of all bonuses before clamping. */
  function RawScore(idea: Idea, now: real): real {
    EngagementBonus(idea.score)
      + CommentBonus(idea.commentsCount)
      + SourceBonus(idea.sourceType)
      + CategoryBonus(idea.category)
      + RecencyBonus(idea.createdUtc, now)
      + LengthBonus(|idea.content|)
      + KeywordBonus(idea.title, idea.content)
  }

  /** `_calculate_idea_score`, with `now` the local clock reading. */
  function Score(idea: Idea, now: real): (r: real)
    ensures 0.0 <= r <= 17.0
    ensures r > 0.0 <==> RawScore(idea, now) > 0.0
    ensures r > 0.0 ==> r == RawScore(idea, now)
  {
    var raw := RawScore(idea, now);
    if raw > 0.0 then raw else 0.0
  }

  // ---------------------------------------------------------------------------
  // Properties

  /** The tags the scrapers write earn 4, 3, 2.5 and 2; in particular the
      Show HN tag "hackernews_showhn" earns exactly 3, not 2. */
  lemma SourceTagBonuses()
    ensures SourceBonus("ideabrowser") == 4.0
    ensures SourceBonus("hackernews_showhn") == 3.0
    ensures SourceBonus("producthunt") == 2.5
    ensures SourceBonus("hackernews") == 2.0
  {
    assert OccursAt("ideabrowser", "ideabrowser", 0);
    OccursContains("ideabrowser", "ideabrowser", 0);

    MissingCharNotContained("hackernews_showhn", "ideabrowser", 0);
    assert OccursAt("hackernews_showhn", "showhn", 11);
    OccursContains("hackernews_showhn", "showhn", 11);

    MissingCharNotContained("producthunt", "ideabrowser", 0);
    MissingCharNotContained("producthunt", "showhn", 0);
    assert OccursAt("producthunt", "producthunt", 0);
    OccursContains("producthunt", "producthunt", 0);

    MissingCharNotContained("hackernews", "ideabrowser", 0);
    MissingCharNotContained("hackernews", "showhn", 2);
    MissingCharNotContained("hackernews", "producthunt", 0);
    assert OccursAt("hackernews", "hackernews", 0);
    OccursContains("hackernews", "hackernews", 0);
  }

  /** A keyword in the content alone is enough for the keyword bonus. */
  lemma KeywordInContent(title: string, content: string, k: nat)
    requires k < |QualityKeywords| && Contains(Lower(content), QualityKeywords[k])
    ensures KeywordBonus(title, content) == 1.0
  {
    LowerAppend(title + " ", content);
    ContainsInConcat(Lower(title + " "), Lower(content), QualityKeywords[k]);
  }

  /** A Hacker News story with 150 points, 40 comments, 600 characters of
      content mentioning "beta", in category "ai-ml": 1.5 + 3 + 2 + 1.5 +
      1.5 + 1 = 10.5, plus 1 when it was created within the last day. */
  lemma HackerNewsExampleScore(idea: Idea, now: real)
    requires idea.score == 150 && idea.commentsCount == 40
    requires idea.sourceType == "hackernews" && idea.category == "ai-ml"
    requires |idea.content| == 600 && Contains(Lower(idea.content), "beta")
    ensures RecencyBonus(idea.createdUtc, now) == 0.0 ==> Score(idea, now) == 10.5
    ensures RecencyBonus(idea.createdUtc, now) == 1.0 ==> Score(idea, now) == 11.5
  {
    SourceTagBonuses();
    assert Lower("ai-ml") == "ai-ml";
    assert OccursAt("ai-ml", Taxonomy[7], 0);
    OccursContains("ai-ml", Taxonomy[7], 0);
    assert CategoryBonus(idea.category) == 1.5;
    KeywordInContent(idea.title, idea.content, 3);
  }
}
