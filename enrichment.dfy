/** The AI processor: turning the chosen candidate into a Korean write-up
    with the chat-completion reply abstracted away, the fallback used when
    the reply is not JSON, and the keyword-based categoriser. */
module Enrichment {
  import opened Wrappers
  import opened Text
  import opened Records

  /** A value `json.loads` produced: an object, given by its string-valued
      fields and the keys of its other members (numbers, null, lists,
      objects), or any other JSON value, of which only its truthiness matters
      here. */
  datatype Json = JObject(fields: map<string, string>, others: set<string>) | JOther(truthy: bool)

  /** What the chat-completion call gave back: it raised, or it returned
      reply text together with what `json.loads` made of that text once
      stripped (None when it is not valid JSON). */
  datatype AiReply = CallRaised | Reply(text: string, parsed: Option<Json>)

  /** Python truthiness of a response dictionary or value. */
  predicate Truthy(j: Json) {
    match j
    case JObject(fields, others) => |fields| > 0 || |others| > 0
    case JOther(t) => t
  }

  /** `d.get(key, default)` on an object. */
  function Get(fields: map<string, string>, key: string, default: string): string {
    if key in fields then fields[key] else default
  }

  // ---------------------------------------------------------------------------
  // The fallback write-up

  const FallbackTitle: string := "해외 스타트업 아이디어"

  const FallbackLead: string :=
    "\n" +
    "💡 오늘의 해외 아이디어\n" +
    "\n" +
    "📋 아이디어 개요\n" +
    "• "

  /** The write-up after the excerpt: "..." and the fixed sections. */
  const FallbackTail: string := "..." + FallbackSections

  const FallbackSections: string :=
    "\n" +
    "\n" +
    "🎯 핵심 가치 제안\n" +
    "• 해외에서 주목받고 있는 혁신적인 아이디어입니다.\n" +
    "\n" +
    "⚙️ 기술적 구현\n" +
    "• 자세한 내용은 원문을 참고하세요.\n" +
    "\n" +
    "🌏 한국 시장 적용 방안\n" +
    "• 한국 시장에 맞게 로컬라이징하여 적용할 수 있습니다.\n" +
    "\n" +
    "💼 비즈니스 모델\n" +
    "• 한국 시장 특성을 고려한 수익화 전략이 필요합니다.\n" +
    "\n" +
    "🚀 실행 로드맵\n" +
    "• MVP 개발부터 단계적 런칭을 고려해보세요.\n"

  /** `_fallback_response`: the fixed title and a write-up that embeds the
      first 100 characters of the reply followed by "...". */
  function Fallback(content: string): (r: Json)
    ensures r.JObject? && r.fields.Keys == {"idea_title", "summary_kr"}
    ensures r.fields["idea_title"] == FallbackTitle
    ensures OccursAt(r.fields["summary_kr"], Take(content, 100) + "...", |FallbackLead|)
  {
    var e := Take(content, 100);
    var summary := FallbackLead + e + FallbackTail;
    assert FallbackTail[..3] == "..." by { ThreeParts("...", FallbackSections, []); }
    MiddleSlice(FallbackLead, e, FallbackTail, 3);
    JObject(map["idea_title" := FallbackTitle, "summary_kr" := summary], {})
  }

  /** Reads the excerpt back out of a fallback write-up. */
  function FallbackExcerpt(summary: string): Option<string> {
    if |summary| >= |FallbackLead| + |FallbackTail|
       && summary[..|FallbackLead|] == FallbackLead
       && summary[|summary| - |FallbackTail|..] == FallbackTail
    then Some(summary[|FallbackLead|..|summary| - |FallbackTail|])
    else None
  }

  /** The fallback write-up keeps exactly the first 100 characters of the
      reply, and they can be read back. */
  lemma FallbackRoundTrip(content: string)
    ensures FallbackExcerpt(Fallback(content).fields["summary_kr"]) == Some(Take(content, 100))
  {
    ThreeParts(FallbackLead, Take(content, 100), FallbackTail);
  }

  // ---------------------------------------------------------------------------
  // The reply and the processed idea

  /** `_get_ai_response`: the parsed JSON when the stripped reply parses, the
      fallback built from the stripped reply when it does not, None when the
      call raises. */
  function GetAiResponse(reply: AiReply): (r: Option<Json>)
    ensures r.None? <==> reply.CallRaised?
    ensures reply.Reply? && reply.parsed.Some? ==> r == reply.parsed
    ensures reply.Reply? && reply.parsed.None? ==>
      r.Some? && r.value.JObject? && r.value.fields.Keys == {"idea_title", "summary_kr"} &&
      r.value.fields["idea_title"] == FallbackTitle &&
      Contains(r.value.fields["summary_kr"], Take(Strip(reply.text), 100) + "...")
  {
    match reply
    case CallRaised => None
    case Reply(text, parsed) =>
      match parsed
      case Some(j) => Some(j)
      case None =>
        var f := Fallback(Strip(text));
        OccursContains(f.fields["summary_kr"], Take(Strip(text), 100) + "...", |FallbackLead|);
        Some(f)
  }

  /** `process_idea` for candidate `idea` at local time `now`: None for a
      missing or falsy response, and for a truthy response that is not an
      object (its `.get` raises and the exception is caught). */
  function ProcessIdea(idea: Idea, reply: AiReply, now: real): (r: Option<ProcessedIdea>)
    ensures reply.CallRaised? ==> r.None?
    ensures r.Some? ==>
      r.value.language == "ko" && !r.value.archived && r.value.sourceUrl == idea.url &&
      r.value.sourceType == idea.sourceType && r.value.publishedAt == now
    ensures r.Some? <==>
      GetAiResponse(reply).Some? && GetAiResponse(reply).value.JObject? &&
      Truthy(GetAiResponse(reply).value)
  {
    match GetAiResponse(reply)
    case None => None
    case Some(response) =>
      if !Truthy(response) then None
      else
        match response
        case JOther(_) => None
        case JObject(fields, _) =>
          Some(ProcessedIdea(
            ideaTitle := Get(fields, "idea_title", idea.title),
            sourceUrl := idea.url,
            summaryKr := Get(fields, "summary_kr", ""),
            publishedAt := now,
            language := "ko",
            sourceType := idea.sourceType,
            archived := false))
  }

  /** A reply that is not JSON still yields an idea: the fixed title and a
      write-up quoting the start of the reply. */
  lemma UnparsedReplyUsesFallback(idea: Idea, text: string, now: real)
    ensures var r := ProcessIdea(idea, Reply(text, None), now);
      r.Some? && r.value.ideaTitle == FallbackTitle &&
      FallbackExcerpt(r.value.summaryKr) == Some(Take(Strip(text), 100))
  {
    FallbackRoundTrip(Strip(text));
  }

  /** A non-empty JSON object reply, whatever its members, yields an idea;
      it supplies the title and summary, a missing title falls back to the
      candidate's own, a missing summary to "". So `{"n": 1}` gives the
      candidate's title and an empty summary. */
  lemma ParsedObjectFields(idea: Idea, text: string, fields: map<string, string>, others: set<string>,
                           now: real)
    requires |fields| > 0 || |others| > 0
    ensures var r := ProcessIdea(idea, Reply(text, Some(JObject(fields, others))), now);
      r.Some? &&
      r.value.ideaTitle == (if "idea_title" in fields then fields["idea_title"] else idea.title) &&
      r.value.summaryKr == (if "summary_kr" in fields then fields["summary_kr"] else "")
  {
  }

  // ---------------------------------------------------------------------------
  // Categorisation

  /** The categoriser's table, in declaration order: each category with its
      keywords. */
  const CategoryTable: seq<(string, seq<string>)> := [
    ("saas", ["saas", "software", "subscription", "platform"]),
    ("mobile-app", ["mobile", "app", "ios", "android", "smartphone"]),
    ("web-app", ["web", "website", "online", "webapp"]),
    ("ecommerce", ["ecommerce", "e-commerce", "shopping", "retail", "marketplace"]),
    ("fintech", ["fintech", "finance", "payment", "banking", "crypto"]),
    ("healthtech", ["health", "medical", "fitness", "wellness", "healthcare"]),
    ("edtech", ["education", "learning", "edtech", "course", "training"]),
    ("ai-ml", ["ai", "machine learning", "artificial intelligence", "ml"]),
    ("blockchain", ["blockchain", "crypto", "defi", "nft", "web3"]),
    ("social", ["social", "community", "network", "sharing"]),
    ("productivity", ["productivity", "efficiency", "automation", "workflow"]),
    ("marketing", ["marketing", "advertising", "promotion", "growth"]),
    ("analytics", ["analytics", "data", "insights", "metrics"]),
    ("automation", ["automation", "bot", "workflow", "efficiency"]),
    ("marketplace", ["marketplace", "platform", "exchange", "trading"]),
    ("subscription", ["subscription", "recurring", "membership"]),
    ("freemium", ["freemium", "free", "premium", "upgrade"]),
    ("b2b", ["b2b", "enterprise", "business", "corporate"]),
    ("b2c", ["b2c", "consumer", "personal", "individual"])]

  /** The number of `keywords` that occur in `text`. */
  function CountMatches(keywords: seq<string>, text: string): (n: nat)
    ensures n <= |keywords|
    ensures n == 0 <==> forall k :: 0 <= k < |keywords| ==> !Contains(text, keywords[k])
  {
    if keywords == [] then 0
    else (if Contains(text, keywords[0]) then 1 else 0) + CountMatches(keywords[1..], text)
  }

  /** The text the categoriser searches: lowercased title, content and
      category, separated by spaces. */
  function CategoryText(idea: Idea): string {
    Lower(idea.title) + " " + Lower(idea.content) + " " + Lower(idea.category)
  }

  /** The number of hits of category `i` of `table`. */
  function HitsIn(table: seq<(string, seq<string>)>, text: string, i: nat): nat
    requires i < |table|
  {
    CountMatches(table[i].1, text)
  }

  /** Category `i` has strictly more hits than every earlier category and at
      least as many as every later one. */
  predicate FirstBestIn(table: seq<(string, seq<string>)>, text: string, i: nat)
    requires i < |table|
  {
    HitsIn(table, text, i) > 0 &&
    (forall j :: 0 <= j < i ==> HitsIn(table, text, j) < HitsIn(table, text, i)) &&
    (forall j :: i < j < |table| ==> HitsIn(table, text, j) <= HitsIn(table, text, i))
  }

  /** `categorize_idea`: the category with the most keyword hits, the
      earliest on a tie, or "general" when nothing matches. */
  method CategorizeIdea(idea: Idea) returns (category: string)
    ensures category == "general" <==>
      forall i :: 0 <= i < |CategoryTable| ==> HitsIn(CategoryTable, CategoryText(idea), i) == 0
    ensures category != "general" ==>
      exists i :: 0 <= i < |CategoryTable| && CategoryTable[i].0 == category &&
        FirstBestIn(CategoryTable, CategoryText(idea), i)
  {
    var text := CategoryText(idea);
    CategoryNamesNotGeneral();
    category := PickCategory(CategoryTable, text);
  }

  lemma CategoryNamesNotGeneral()
    ensures forall i :: 0 <= i < |CategoryTable| ==> CategoryTable[i].0 != "general"
  {
  }

  /** The scan of `categorize_idea` over any table whose names differ from
      "general". */
  method PickCategory(table: seq<(string, seq<string>)>, text: string) returns (category: string)
    requires forall i :: 0 <= i < |table| ==> table[i].0 != "general"
    ensures category == "general" <==> forall i :: 0 <= i < |table| ==> HitsIn(table, text, i) == 0
    ensures category != "general" ==>
      exists i :: 0 <= i < |table| && table[i].0 == category && FirstBestIn(table, text, i)
  {
    category := "general";
    var maxMatches := 0;
    ghost var best := -1;
    for i := 0 to |table|
      invariant best < i
      invariant best == -1 <==> maxMatches == 0
      invariant best == -1 ==> category == "general" && forall j :: 0 <= j < i ==> HitsIn(table, text, j) == 0
      invariant best >= 0 ==>
        category == table[best].0 && HitsIn(table, text, best) == maxMatches &&
        (forall j :: 0 <= j < best ==> HitsIn(table, text, j) < maxMatches) &&
        (forall j :: best < j < i ==> HitsIn(table, text, j) <= maxMatches)
    {
      var matches := CountMatches(table[i].1, text);
      if matches > maxMatches {
        maxMatches := matches;
        category := table[i].0;
        best := i;
      }
    }
    if best >= 0 {
      assert FirstBestIn(table, text, best);
    }
  }
}
