/** The `Paper` record: an immutable value whose only sanctioned change is
    copy-with-overrides (`model_copy(update=...)`). */
module Papers {
  import opened Wrappers
  import opened Time


  /** Eight mandatory fields, then three optional ones. */
  datatype Paper = Paper(
    arxivId: string,
    title: string,
    authors: seq<string>,
    summary: string,
    publishedDate: Timestamp,
    updatedDate: Timestamp,
    primaryCategory: string,
    categories: seq<string>,
    pdfUrl: Option<string>,
    llmSummary: Option<string>,
    keyInsights: Option<string>)

  /** Construction with only the mandatory fields given. */
  function NewPaper(arxivId: string, title: string, authors: seq<string>, summary: string,
                    publishedDate: Timestamp, updatedDate: Timestamp,
                    primaryCategory: string, categories: seq<string>): (p: Paper)
    ensures p.arxivId == arxivId && p.title == title && p.authors == authors
    ensures p.summary == summary && p.publishedDate == publishedDate
    ensures p.updatedDate == updatedDate && p.primaryCategory == primaryCategory
    ensures p.categories == categories
    ensures p.pdfUrl == None && p.llmSummary == None && p.keyInsights == None
  {
    Paper(arxivId, title, authors, summary, publishedDate, updatedDate,
          primaryCategory, categories, None, None, None)
  }

  /** The `update` dictionary of `model_copy`: a field is named when its entry
      is `Some(v)`, and then `v` is its new value. */
  datatype PaperUpdate = PaperUpdate(
    arxivId: Option<string>,
    title: Option<string>,
    authors: Option<seq<string>>,
    summary: Option<string>,
    publishedDate: Option<Timestamp>,
    updatedDate: Option<Timestamp>,
    primaryCategory: Option<string>,
    categories: Option<seq<string>>,
    pdfUrl: Option<Option<string>>,
    llmSummary: Option<Option<string>>,
    keyInsights: Option<Option<string>>)

  /** The empty dictionary. */
  const NoUpdate: PaperUpdate :=
    PaperUpdate(None, None, None, None, None, None, None, None, None, None, None)

  /** `{"llm_summary": s, "key_insights": k}`. */
  function IntelligenceUpdate(llmSummary: Option<string>, keyInsights: Option<string>): PaperUpdate {
    NoUpdate.(llmSummary := Some(llmSummary), keyInsights := Some(keyInsights))
  }

  /** The update names no field other than `llm_summary` and `key_insights`. */
  predicate OnlyIntelligence(u: PaperUpdate) {
    u == NoUpdate.(llmSummary := u.llmSummary, keyInsights := u.keyInsights)
  }

  /** `paper.model_copy(update=u)`: a new value; `p` itself is untouched. */
  function ModelCopy(p: Paper, u: PaperUpdate): (r: Paper)
    ensures u.arxivId.None? ==> r.arxivId == p.arxivId
    ensures u.title.None? ==> r.title == p.title
    ensures u.authors.None? ==> r.authors == p.authors
    ensures u.summary.None? ==> r.summary == p.summary
    ensures u.publishedDate.None? ==> r.publishedDate == p.publishedDate
    ensures u.updatedDate.None? ==> r.updatedDate == p.updatedDate
    ensures u.primaryCategory.None? ==> r.primaryCategory == p.primaryCategory
    ensures u.categories.None? ==> r.categories == p.categories
    ensures u.pdfUrl.None? ==> r.pdfUrl == p.pdfUrl
    ensures u.llmSummary.None? ==> r.llmSummary == p.llmSummary
    ensures u.keyInsights.None? ==> r.keyInsights == p.keyInsights
    ensures u.arxivId.Some? ==> r.arxivId == u.arxivId.value
    ensures u.title.Some? ==> r.title == u.title.value
    ensures u.authors.Some? ==> r.authors == u.authors.value
    ensures u.summary.Some? ==> r.summary == u.summary.value
    ensures u.publishedDate.Some? ==> r.publishedDate == u.publishedDate.value
    ensures u.updatedDate.Some? ==> r.updatedDate == u.updatedDate.value
    ensures u.primaryCategory.Some? ==> r.primaryCategory == u.primaryCategory.value
    ensures u.categories.Some? ==> r.categories == u.categories.value
    ensures u.pdfUrl.Some? ==> r.pdfUrl == u.pdfUrl.value
    ensures u.llmSummary.Some? ==> r.llmSummary == u.llmSummary.value
    ensures u.keyInsights.Some? ==> r.keyInsights == u.keyInsights.value
  {
    Paper(
      u.arxivId.GetOr(p.arxivId),
      u.title.GetOr(p.title),
      u.authors.GetOr(p.authors),
      u.summary.GetOr(p.summary),
      u.publishedDate.GetOr(p.publishedDate),
      u.updatedDate.GetOr(p.updatedDate),
      u.primaryCategory.GetOr(p.primaryCategory),
      u.categories.GetOr(p.categories),
      u.pdfUrl.GetOr(p.pdfUrl),
      u.llmSummary.GetOr(p.llmSummary),
      u.keyInsights.GetOr(p.keyInsights))
  }

  /** Applying `u` and then `v` is one copy with `v`'s entries laid over `u`'s. */
  function Merge(u: PaperUpdate, v: PaperUpdate): PaperUpdate {
    PaperUpdate(
      if v.arxivId.Some? then v.arxivId else u.arxivId,
      if v.title.Some? then v.title else u.title,
      if v.authors.Some? then v.authors else u.authors,
      if v.summary.Some? then v.summary else u.summary,
      if v.publishedDate.Some? then v.publishedDate else u.publishedDate,
      if v.updatedDate.Some? then v.updatedDate else u.updatedDate,
      if v.primaryCategory.Some? then v.primaryCategory else u.primaryCategory,
      if v.categories.Some? then v.categories else u.categories,
      if v.pdfUrl.Some? then v.pdfUrl else u.pdfUrl,
      if v.llmSummary.Some? then v.llmSummary else u.llmSummary,
      if v.keyInsights.Some? then v.keyInsights else u.keyInsights)
  }

  /** Two records agree on every field the catalogue supplies, that is on all
      but `llm_summary` and `key_insights`. */
  predicate SameCatalogFields(a: Paper, b: Paper) {
    && a.arxivId == b.arxivId
    && a.title == b.title
    && a.authors == b.authors
    && a.summary == b.summary
    && a.publishedDate == b.publishedDate
    && a.updatedDate == b.updatedDate
    && a.primaryCategory == b.primaryCategory
    && a.categories == b.categories
    && a.pdfUrl == b.pdfUrl
  }

  /** A copy with the empty dictionary is the same record. */
  lemma CopyWithNoUpdateIsIdentity(p: Paper)
    ensures ModelCopy(p, NoUpdate) == p
  {
  }

  /** Copies compose: the later dictionary wins on every field both name. */
  lemma CopiesCompose(p: Paper, u: PaperUpdate, v: PaperUpdate)
    ensures ModelCopy(ModelCopy(p, u), v) == ModelCopy(p, Merge(u, v))
  {
  }

  /** Repeating a copy changes nothing further. */
  lemma CopyIsIdempotent(p: Paper, u: PaperUpdate)
    ensures ModelCopy(ModelCopy(p, u), u) == ModelCopy(p, u)
  {
    CopiesCompose(p, u, u);
    assert Merge(u, u) == u;
  }

  /** An update that touches only the intelligence fields keeps every
      catalogue field, and a record can differ from its copy only there. */
  lemma IntelligenceCopyKeepsCatalogFields(p: Paper, u: PaperUpdate)
    requires OnlyIntelligence(u)
    ensures SameCatalogFields(ModelCopy(p, u), p)
    ensures ModelCopy(p, u) == p.(llmSummary := u.llmSummary.GetOr(p.llmSummary),
                                  keyInsights := u.keyInsights.GetOr(p.keyInsights))
  {
  }
}
