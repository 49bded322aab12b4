/** The section record that flows through the pipeline, and the outside
    services the ranking and summarizing steps may call. */
module Records {
  import opened Options
  import opened Extractor

  /** One section dictionary: the heading keys the extractor writes
      (`section_title`, `level`, `page_number`, `text`), the `document` key
      the driver adds, and the `relevance_score` and `importance_rank` keys
      the ranking step adds. A key not yet written is `None`. */
  datatype Section = Section(
    title: string,
    level: Level,
    page: int,
    text: string,
    document: string,
    score: Option<real>,
    rank: Option<nat>)

  /** A detected heading tagged with the file name of its document. */
  function Tagged(h: Heading, document: string): Section {
    Section(h.title, h.level, h.page, h.text, document, None, None)
  }

  /** A `subsection_analysis` entry: `document`, `refined_text`, `page_number`. */
  datatype Summary = Summary(document: string, refinedText: string, page: int)

  /** What the environment provides. The arguments of the two model calls are
      the section title, the section text, the persona and the job, from
      which the prompt is built.
      - `hasEmbeddings`: whether the sentence-embedding model could be loaded;
      - `similarity(a, b)`: the cosine similarity of the embeddings of `a` and `b`;
      - `rateRelevance`: the standard output of the local language model asked
        to rate a section, or `None` when the call raises (missing program,
        timeout, undecodable output);
      - `writeSummary`: the same for the request to summarize a section. */
  datatype Services = Services(
    hasEmbeddings: bool,
    similarity: (string, string) -> real,
    rateRelevance: (string, string, string, string) -> Option<string>,
    writeSummary: (string, string, string, string) -> Option<string>)
}
