/** The records the pipeline passes around. Clock readings are seconds as
    real numbers; every clock is a parameter of the operation that reads it. */
module Records {
  import opened Wrappers

  const Hour: real := 3600.0
  const Day: real := 24.0 * Hour

  /** A scraped candidate: the dictionary every scraper builds. `category`
      is "" where a scraper sets none (the `.get('category', '')` default),
      `createdUtc` is None when the key is missing, and `qualityScore` is
      written by ranking. */
  datatype Idea = Idea(
    title: string,
    content: string,
    url: string,
    score: int,
    commentsCount: int,
    createdUtc: Option<real>,
    sourceType: string,
    category: string,
    qualityScore: Option<real>)

  /** The dictionary `process_idea` returns for a winning candidate. */
  datatype ProcessedIdea = ProcessedIdea(
    ideaTitle: string,
    sourceUrl: string,
    summaryKr: string,
    publishedAt: real,
    language: string,
    sourceType: string,
    archived: bool)

  /** A row of the `ideas` table. */
  datatype StoredIdea = StoredIdea(
    id: nat,
    ideaTitle: string,
    sourceUrl: string,
    summaryKr: string,
    publishedAt: real,
    language: string,
    sourceType: string,
    archived: bool,
    createdAt: real,
    updatedAt: real)
}
