/** `run_daily_cycle`: classify each fetched candidate against the store,
    enrich it with a generated summary when it is new or its stored summary
    is empty, save it, and notify once with the new ones. The catalogue, the
    summariser and the notifier are abstract: the fetched list is an input,
    the summariser an oracle, and summariser and notifier calls are recorded
    in traces. */
module Reconcile {
  import opened Wrappers
  import opened Papers
  import opened Storage

  /** One answer of `llm.generate_summary`: a text, or a raised exception. */
  datatype Reply = Summary(text: string) | Failed

  /** The summariser's answer to its `n`-th call (from 0) on an abstract. */
  type Summariser = (nat, string) -> Reply

  /** One summariser call: the candidate it was made for, and the abstract passed. */
  datatype Call = Call(arxivId: string, text: string)

  /** The loop's state after a prefix of the fetched list: the store, every
      record saved (in order), the `new_papers` list, and the summariser calls. */
  datatype Batch = Batch(store: Store, saved: seq<Paper>, newPapers: seq<Paper>, calls: seq<Call>)

  /** The outcome of a cycle; `digests` lists every `send_daily_digest` argument. */
  datatype CycleResult = CycleResult(
    store: Store,
    saved: seq<Paper>,
    newPapers: seq<Paper>,
    calls: seq<Call>,
    digests: seq<seq<Paper>>)

  /** The loop asks for a summary when the id is unknown, or when the stored
      summary is falsy (absent or empty). */
  predicate NeedsSummary(s: Store, id: string) {
    var existing := GetPaper(s, id);
    existing.None? || !Truthy(existing.value.llmSummary)
  }

  /** Over the raw table: a summary is asked for exactly when the id is not
      stored, the table has no summary column, or the stored summary is falsy. */
  lemma NeedsSummaryIff(s: Store, id: string)
    ensures NeedsSummary(s, id)
        <==> id !in s.papers || s.schema.Original? || !Truthy(s.papers[id].llmSummary)
  {
  }

  /** The body of the per-candidate loop. */
  function Step(b: Batch, p: Paper, summarise: Summariser): (b': Batch)
    ensures |b'.saved| == |b.saved| + 1 && b'.saved[..|b.saved|] == b.saved
    ensures SameCatalogFields(b'.saved[|b.saved|], p)
    ensures b'.store == SavePaper(b.store, b'.saved[|b.saved|])
    ensures b'.newPapers
         == b.newPapers + (if p.arxivId in b.store.papers then [] else [b'.saved[|b.saved|]])
    ensures b'.calls
         == b.calls + (if NeedsSummary(b.store, p.arxivId) then [Call(p.arxivId, p.summary)] else [])
  {
    match GetPaper(b.store, p.arxivId)
    case None =>
      var toSave :=
        match summarise(|b.calls|, p.summary)
        case Summary(text) => ModelCopy(p, NoUpdate.(llmSummary := Some(Some(text))))
        case Failed => p;
      Batch(SavePaper(b.store, toSave), b.saved + [toSave], b.newPapers + [toSave],
            b.calls + [Call(p.arxivId, p.summary)])
    case Some(existing) =>
      var updates := IntelligenceUpdate(existing.llmSummary, existing.keyInsights);
      if Truthy(existing.llmSummary) then
        var toSave := ModelCopy(p, updates);
        Batch(SavePaper(b.store, toSave), b.saved + [toSave], b.newPapers, b.calls)
      else
        var backfilled :=
          match summarise(|b.calls|, p.summary)
          case Summary(text) => updates.(llmSummary := Some(Some(text)))
          case Failed => updates;
        var toSave := ModelCopy(p, backfilled);
        Batch(SavePaper(b.store, toSave), b.saved + [toSave], b.newPapers,
              b.calls + [Call(p.arxivId, p.summary)])
  }

  /** What is saved for a candidate: a new one carries the summariser's text,
      or is saved unchanged when the summariser fails; an existing one keeps
      the stored `llm_summary` and `key_insights`, unless a backfill succeeds. */
  lemma StepRecord(b: Batch, p: Paper, summarise: Summariser)
    ensures var saved := Step(b, p, summarise).saved[|b.saved|];
      p.arxivId !in b.store.papers ==>
        saved == (match summarise(|b.calls|, p.summary)
                  case Summary(t) => p.(llmSummary := Some(t))
                  case Failed => p)
    ensures var saved := Step(b, p, summarise).saved[|b.saved|];
      p.arxivId in b.store.papers ==>
        var stored := GetPaper(b.store, p.arxivId).value;
        && saved.keyInsights == stored.keyInsights
        && saved.llmSummary
           == (if NeedsSummary(b.store, p.arxivId) && summarise(|b.calls|, p.summary).Summary?
               then Some(summarise(|b.calls|, p.summary).text)
               else stored.llmSummary)
  {
  }

  /** The loop over the fetched list, in order. */
  function Process(store: Store, fetched: seq<Paper>, summarise: Summariser): (b: Batch)
    ensures |b.saved| == |fetched|
    ensures forall i :: 0 <= i < |fetched| ==> SameCatalogFields(b.saved[i], fetched[i])
    ensures b.store.schema == store.schema
    ensures |b.newPapers| <= |fetched| && |b.calls| <= |fetched|
    decreases |fetched|
  {
    if fetched == [] then Batch(store, [], [], [])
    else
      var k := |fetched|;
      var b := Process(store, fetched[..k - 1], summarise);
      var b' := Step(b, fetched[k - 1], summarise);
      ProcessStepFacts(fetched, b.saved, b'.saved);
      b'
  }

  /** `run_daily_cycle` after the fetch: nothing at all for an empty list,
      otherwise the loop followed by at most one digest. */
  function RunDailyCycle(store: Store, fetched: seq<Paper>, summarise: Summariser): (r: CycleResult)
    ensures |fetched| == 0 ==>
      r.store == store && r.saved == [] && r.newPapers == [] && r.calls == [] && r.digests == []
    ensures |r.saved| == |fetched| && r.store == SaveAll(store, r.saved)
    ensures forall i :: 0 <= i < |fetched| ==> SameCatalogFields(r.saved[i], fetched[i])
    ensures |r.digests| <= 1
    ensures |r.digests| == 1 <==> |r.newPapers| > 0
    ensures forall d :: d in r.digests ==> d == r.newPapers
  {
    if |fetched| == 0 then CycleResult(store, [], [], [], [])
    else
      var b := Process(store, fetched, summarise);
      ProcessSavesAll(store, fetched, summarise);
      CycleResult(b.store, b.saved, b.newPapers, b.calls,
                  if |b.newPapers| > 0 then [b.newPapers] else [])
  }

  lemma ProcessStepFacts(fetched: seq<Paper>, saved: seq<Paper>, saved': seq<Paper>)
    requires |fetched| > 0 && |saved| == |fetched| - 1
    requires |saved'| == |saved| + 1 && saved'[..|saved|] == saved
    requires forall i :: 0 <= i < |saved| ==> SameCatalogFields(saved[i], fetched[i])
    requires SameCatalogFields(saved'[|saved|], fetched[|saved|])
    ensures forall i :: 0 <= i < |fetched| ==> SameCatalogFields(saved'[i], fetched[i])
  {
    forall i | 0 <= i < |fetched|
      ensures SameCatalogFields(saved'[i], fetched[i])
    {
      if i < |saved| {
        assert saved'[i] == saved[i];
      }
    }
  }

  /** The loop's store is the result of saving each record it built, in order. */
  lemma {:induction false} ProcessSavesAll(store: Store, fetched: seq<Paper>, summarise: Summariser)
    ensures var b := Process(store, fetched, summarise);
      b.store == SaveAll(store, b.saved)
    decreases |fetched|, 1
  {
    if fetched != [] {
      ProcessSavesAllLast(store, fetched, summarise);
    }
  }

  lemma {:induction false} ProcessSavesAllLast(store: Store, fetched: seq<Paper>, summarise: Summariser)
    requires fetched != []
    ensures var b := Process(store, fetched, summarise);
      b.store == SaveAll(store, b.saved)
    decreases |fetched|, 0
  {
    var k := |fetched|;
    var b := Process(store, fetched[..k - 1], summarise);
    var b' := Process(store, fetched, summarise);
    ProcessSavesAll(store, fetched[..k - 1], summarise);
    ProcessUnfold(store, fetched, summarise);
    SaveAllSnoc(store, b.saved, b'.saved);
  }

  lemma SaveAllSnoc(store: Store, saved: seq<Paper>, saved': seq<Paper>)
    requires |saved'| == |saved| + 1 && saved'[..|saved|] == saved
    ensures SaveAll(store, saved') == SavePaper(SaveAll(store, saved), saved'[|saved|])
  {
  }

  // ---------------------------------------------------------------------
  // Classification: which candidates are new

  /** Candidate `i` is the first in the list with its id, and that id was not
      stored before the cycle began. */
  predicate FirstSeenAt(known: set<string>, fetched: seq<Paper>, i: nat)
    requires i < |fetched|
  {
    && fetched[i].arxivId !in known
    && forall j :: 0 <= j < i ==> fetched[j].arxivId != fetched[i].arxivId
  }

  /** The saved records at the positions of first sightings, in list order. */
  function FirstSightings(known: set<string>, fetched: seq<Paper>, saved: seq<Paper>): seq<Paper>
    requires |saved| == |fetched|
    decreases |fetched|
  {
    if fetched == [] then []
    else
      var k := |fetched|;
      FirstSightings(known, fetched[..k - 1], saved[..k - 1])
        + (if FirstSeenAt(known, fetched, k - 1) then [saved[k - 1]] else [])
  }

  /** The loop's store holds exactly the ids stored before plus those fetched,
      and stays well formed. */
  lemma {:induction false} ProcessStore(store: Store, fetched: seq<Paper>, summarise: Summariser)
    requires Valid(store)
    ensures Valid(Process(store, fetched, summarise).store)
    ensures Process(store, fetched, summarise).store.papers.Keys == store.papers.Keys + IdsOf(fetched)
  {
    var b := Process(store, fetched, summarise);
    ProcessSavesAll(store, fetched, summarise);
    SaveAllSpec(store, b.saved);
    SameIds(b.saved, fetched);
  }

  /** Two lists with the same id at every position have the same id set. */
  lemma SameIds(xs: seq<Paper>, ys: seq<Paper>)
    requires |xs| == |ys|
    requires forall i :: 0 <= i < |xs| ==> SameCatalogFields(xs[i], ys[i])
    ensures IdsOf(xs) == IdsOf(ys)
  {
    forall x | x in IdsOf(ys) ensures x in IdsOf(xs) {
      var i :| 0 <= i < |ys| && ys[i].arxivId == x;
      assert xs[i].arxivId == x;
    }
    forall x | x in IdsOf(xs) ensures x in IdsOf(ys) {
      var i :| 0 <= i < |xs| && xs[i].arxivId == x;
      assert ys[i].arxivId == x;
    }
  }

  /** `new_papers` is exactly the saved form of the candidates whose id was
      absent at lookup time: the first occurrence of each id not stored before
      the cycle. A repeat later in the same list counts as existing. */
  lemma {:induction false} NewPapersAreFirstSightings(store: Store, fetched: seq<Paper>, summarise: Summariser)
    requires Valid(store)
    ensures var b := Process(store, fetched, summarise);
      b.newPapers == FirstSightings(store.papers.Keys, fetched, b.saved)
    decreases |fetched|
  {
    if fetched != [] {
      var k := |fetched|;
      var known := store.papers.Keys;
      var b := Process(store, fetched[..k - 1], summarise);
      var b' := Process(store, fetched, summarise);
      var p := fetched[k - 1];
      NewPapersAreFirstSightings(store, fetched[..k - 1], summarise);
      ProcessStore(store, fetched[..k - 1], summarise);
      ProcessUnfold(store, fetched, summarise);
      assert b'.saved[..k - 1] == b.saved;
      FirstSeenIffUnknown(known, fetched);
    }
  }

  lemma SplitLast(xs: seq<Paper>)
    requires xs != []
    ensures xs[..|xs| - 1] + [xs[|xs| - 1]] == xs
  {
  }

  lemma ProcessUnfold(store: Store, fetched: seq<Paper>, summarise: Summariser)
    requires fetched != []
    ensures Process(store, fetched, summarise)
         == Step(Process(store, fetched[..|fetched| - 1], summarise), fetched[|fetched| - 1], summarise)
  {
  }

  /** The last candidate is a first sighting exactly when its id is neither
      stored before the cycle nor among the earlier candidates. */
  lemma FirstSeenIffUnknown(known: set<string>, fetched: seq<Paper>)
    requires fetched != []
    ensures var k := |fetched|;
      fetched[k - 1].arxivId in known + IdsOf(fetched[..k - 1]) <==> !FirstSeenAt(known, fetched, k - 1)
  {
    var k := |fetched|;
    var p := fetched[k - 1];
    if p.arxivId in IdsOf(fetched[..k - 1]) {
      var j :| 0 <= j < k - 1 && fetched[..k - 1][j].arxivId == p.arxivId;
      assert fetched[j].arxivId == p.arxivId;
    }
    if p.arxivId !in known && !FirstSeenAt(known, fetched, k - 1) {
      var j :| 0 <= j < k - 1 && fetched[j].arxivId == p.arxivId;
      assert fetched[..k - 1][j].arxivId == p.arxivId;
    }
  }

  /** When every fetched id is already stored, nothing is new. */
  lemma {:induction false} NoFirstSightingsWhenAllKnown(known: set<string>, fetched: seq<Paper>, saved: seq<Paper>)
    requires |saved| == |fetched| && IdsOf(fetched) <= known
    ensures FirstSightings(known, fetched, saved) == []
    decreases |fetched|
  {
    if fetched != [] {
      var k := |fetched|;
      IdsOfSnoc(fetched);
      NoFirstSightingsWhenAllKnown(known, fetched[..k - 1], saved[..k - 1]);
    }
  }

  // ---------------------------------------------------------------------
  // Enrichment against the table as declared

  /** One call per candidate, with its abstract, in list order. */
  function CallsFor(fetched: seq<Paper>): (r: seq<Call>)
    ensures |r| == |fetched|
    ensures forall i :: 0 <= i < |fetched| ==> r[i] == Call(fetched[i].arxivId, fetched[i].summary)
    decreases |fetched|
  {
    if fetched == [] then []
    else
      var k := |fetched|;
      CallsFor(fetched[..k - 1]) + [Call(fetched[k - 1].arxivId, fetched[k - 1].summary)]
  }

  /** Because the declared table drops `llm_summary`, every candidate, new or
      re-seen, costs exactly one summariser call. */
  lemma {:induction false} OriginalSummarisesEveryCandidate(store: Store, fetched: seq<Paper>, summarise: Summariser)
    requires store.schema.Original?
    ensures Process(store, fetched, summarise).calls == CallsFor(fetched)
    decreases |fetched|, 1
  {
    if fetched != [] {
      OriginalSummarisesLast(store, fetched, summarise);
    }
  }

  lemma {:induction false} OriginalSummarisesLast(store: Store, fetched: seq<Paper>, summarise: Summariser)
    requires store.schema.Original? && fetched != []
    ensures Process(store, fetched, summarise).calls == CallsFor(fetched)
    decreases |fetched|, 0
  {
    var k := |fetched|;
    var b := Process(store, fetched[..k - 1], summarise);
    OriginalSummarisesEveryCandidate(store, fetched[..k - 1], summarise);
    ProcessUnfold(store, fetched, summarise);
    OriginalNeedsSummary(b.store, fetched[k - 1].arxivId);
  }

  /** The declared table never yields a stored summary, so every lookup asks for one. */
  lemma OriginalNeedsSummary(s: Store, id: string)
    requires s.schema.Original?
    ensures NeedsSummary(s, id)
  {
  }

  /** Running the same batch twice against the declared table: the
      second run finds nothing new and sends no digest, yet calls the
      summariser again for every candidate. */
  lemma {:induction false} RerunResummarises(store: Store, fetched: seq<Paper>, first: Summariser, second: Summariser)
    requires Valid(store) && store.schema.Original?
    ensures var r1 := RunDailyCycle(store, fetched, first);
      var r2 := RunDailyCycle(r1.store, fetched, second);
      && r2.newPapers == [] && r2.digests == []
      && r2.calls == CallsFor(fetched)
  {
    var r1 := RunDailyCycle(store, fetched, first);
    var b2 := Process(r1.store, fetched, second);
    assert Valid(r1.store) && r1.store.schema.Original? && IdsOf(fetched) <= r1.store.papers.Keys by {
      ProcessStore(store, fetched, first);
    }
    assert b2.newPapers == [] by {
      NewPapersAreFirstSightings(r1.store, fetched, second);
      NoFirstSightingsWhenAllKnown(r1.store.papers.Keys, fetched, b2.saved);
    }
    assert b2.calls == CallsFor(fetched) by {
      OriginalSummarisesEveryCandidate(r1.store, fetched, second);
    }
  }

  // ---------------------------------------------------------------------
  // Enrichment against a table that keeps the intelligence columns

  /** Every id of `ids` is stored with a truthy summary. */
  predicate Summarised(s: Store, ids: set<string>) {
    forall id :: id in ids ==> id in s.papers && Truthy(s.papers[id].llmSummary)
  }

  /** One step keeps a stored truthy summary, with its insights, in place. */
  lemma StepPreservesSummary(b: Batch, p: Paper, summarise: Summariser, id: string)
    requires b.store.schema.WithIntelligence?
    requires id in b.store.papers && Truthy(b.store.papers[id].llmSummary)
    ensures var b' := Step(b, p, summarise);
      && id in b'.store.papers
      && b'.store.papers[id].llmSummary == b.store.papers[id].llmSummary
      && b'.store.papers[id].keyInsights == b.store.papers[id].keyInsights
      && (p.arxivId == id ==> b'.calls == b.calls)
      && (forall c :: c in b'.calls ==> c in b.calls || c.arxivId == p.arxivId)
      && (p.arxivId == id ==>
            b'.saved[|b.saved|].llmSummary == b.store.papers[id].llmSummary
            && b'.saved[|b.saved|].keyInsights == b.store.papers[id].keyInsights)
  {
    StepRecord(b, p, summarise);
    if p.arxivId == id {
      assert !NeedsSummary(b.store, id);
    }
  }

  /** Given a stored non-empty summary, the paper keeps its summary and
      insights in the store whatever the catalogue now reports, and the
      summariser is never called for it. */
  lemma {:induction false} SummaryPreserved(store: Store, fetched: seq<Paper>, summarise: Summariser, id: string)
    requires store.schema.WithIntelligence?
    requires id in store.papers && Truthy(store.papers[id].llmSummary)
    ensures var b := Process(store, fetched, summarise);
      && id in b.store.papers
      && b.store.papers[id].llmSummary == store.papers[id].llmSummary
      && b.store.papers[id].keyInsights == store.papers[id].keyInsights
      && (forall c :: c in b.calls ==> c.arxivId != id)
    decreases |fetched|
  {
    if fetched != [] {
      var k := |fetched|;
      SummaryPreserved(store, fetched[..k - 1], summarise, id);
      ProcessUnfold(store, fetched, summarise);
      StepPreservesSummary(Process(store, fetched[..k - 1], summarise), fetched[k - 1], summarise, id);
    }
  }

  /** Given a stored non-empty summary, every record saved for that paper
      during the loop carries the stored summary and insights. */
  lemma {:induction false} SavedSummaryPreserved(store: Store, fetched: seq<Paper>, summarise: Summariser, id: string)
    requires store.schema.WithIntelligence?
    requires id in store.papers && Truthy(store.papers[id].llmSummary)
    ensures var b := Process(store, fetched, summarise);
      forall i :: 0 <= i < |fetched| && fetched[i].arxivId == id ==>
        b.saved[i].llmSummary == store.papers[id].llmSummary
        && b.saved[i].keyInsights == store.papers[id].keyInsights
    decreases |fetched|
  {
    if fetched != [] {
      var k := |fetched|;
      SavedSummaryPreserved(store, fetched[..k - 1], summarise, id);
      SummaryPreserved(store, fetched[..k - 1], summarise, id);
      StepSavesSummary(Process(store, fetched[..k - 1], summarise), fetched[..k - 1], fetched[k - 1], summarise, id);
      ProcessUnfold(store, fetched, summarise);
      SplitLast(fetched);
    }
  }

  /** One step extends the saved records carrying a stored truthy summary. */
  lemma StepSavesSummary(b: Batch, done: seq<Paper>, p: Paper, summarise: Summariser, id: string)
    requires b.store.schema.WithIntelligence?
    requires id in b.store.papers && Truthy(b.store.papers[id].llmSummary)
    requires |b.saved| == |done|
    requires forall i :: 0 <= i < |done| && done[i].arxivId == id ==>
      b.saved[i].llmSummary == b.store.papers[id].llmSummary
      && b.saved[i].keyInsights == b.store.papers[id].keyInsights
    ensures var b' := Step(b, p, summarise);
      var done' := done + [p];
      forall i :: 0 <= i < |done'| && done'[i].arxivId == id ==>
        b'.saved[i].llmSummary == b.store.papers[id].llmSummary
        && b'.saved[i].keyInsights == b.store.papers[id].keyInsights
  {
    var b' := Step(b, p, summarise);
    StepPreservesSummary(b, p, summarise, id);
    forall i | 0 <= i < |done| + 1 && (done + [p])[i].arxivId == id
      ensures b'.saved[i].llmSummary == b.store.papers[id].llmSummary
      ensures b'.saved[i].keyInsights == b.store.papers[id].keyInsights
    {
      if i < |done| {
        assert b'.saved[i] == b.saved[i];
      }
    }
  }

  /** One step keeps every summarised id summarised; it summarises its own
      candidate too when the summariser answers with a non-empty text. */
  lemma StepKeepsSummarised(b: Batch, p: Paper, summarise: Summariser, ids: set<string>)
    requires b.store.schema.WithIntelligence? && Summarised(b.store, ids)
    ensures Summarised(Step(b, p, summarise).store, ids)
    ensures p.arxivId in ids ==> Step(b, p, summarise).calls == b.calls
    ensures (forall n, t :: summarise(n, t).Summary? && summarise(n, t).text != "") ==>
      Summarised(Step(b, p, summarise).store, ids + {p.arxivId})
  {
    var b' := Step(b, p, summarise);
    StepRecord(b, p, summarise);
    forall id | id in ids
      ensures id in b'.store.papers && Truthy(b'.store.papers[id].llmSummary)
    {
      StepPreservesSummary(b, p, summarise, id);
    }
    if p.arxivId in ids {
      assert !NeedsSummary(b.store, p.arxivId);
    }
    if forall n, t :: summarise(n, t).Summary? && summarise(n, t).text != "" {
      assert summarise(|b.calls|, p.summary).Summary?;
      assert Truthy(b'.saved[|b.saved|].llmSummary);
    }
  }

  /** With a summariser that always answers with a non-empty text, one run
      leaves every fetched id stored with a truthy summary. */
  lemma {:induction false} RunSummarisesAll(store: Store, fetched: seq<Paper>, summarise: Summariser)
    requires store.schema.WithIntelligence?
    requires forall n, t :: summarise(n, t).Summary? && summarise(n, t).text != ""
    ensures Summarised(Process(store, fetched, summarise).store, IdsOf(fetched))
    decreases |fetched|
  {
    if fetched != [] {
      var k := |fetched|;
      RunSummarisesAll(store, fetched[..k - 1], summarise);
      ProcessUnfold(store, fetched, summarise);
      StepKeepsSummarised(Process(store, fetched[..k - 1], summarise), fetched[k - 1], summarise,
                          IdsOf(fetched[..k - 1]));
      IdsOfSnoc(fetched);
    }
  }

  /** When every fetched id already has a truthy stored summary, the loop
      makes no summariser call and keeps all those summaries truthy. */
  lemma {:induction false} SummarisedRunMakesNoCalls(store: Store, fetched: seq<Paper>, summarise: Summariser, ids: set<string>)
    requires store.schema.WithIntelligence?
    requires IdsOf(fetched) <= ids && Summarised(store, ids)
    ensures Process(store, fetched, summarise).calls == []
    ensures Summarised(Process(store, fetched, summarise).store, ids)
    decreases |fetched|
  {
    if fetched != [] {
      var k := |fetched|;
      IdsOfSnoc(fetched);
      assert IdsOf(fetched[..k - 1]) <= ids && fetched[k - 1].arxivId in ids;
      SummarisedRunMakesNoCalls(store, fetched[..k - 1], summarise, ids);
      var b := Process(store, fetched[..k - 1], summarise);
      ProcessUnfold(store, fetched, summarise);
      StepKeepsSummarised(b, fetched[k - 1], summarise, ids);
    }
  }

  /** With the intelligence columns kept, re-running a batch whose first run
      was fully summarised finds nothing new and makes no summariser call. */
  lemma {:induction false} RerunMakesNoCalls(store: Store, fetched: seq<Paper>, first: Summariser, second: Summariser)
    requires Valid(store) && store.schema.WithIntelligence?
    requires forall n, t :: first(n, t).Summary? && first(n, t).text != ""
    ensures var r1 := RunDailyCycle(store, fetched, first);
      var r2 := RunDailyCycle(r1.store, fetched, second);
      r2.calls == [] && r2.newPapers == [] && r2.digests == []
  {
    var r1 := RunDailyCycle(store, fetched, first);
    if fetched != [] {
      RunSummarisesAll(store, fetched, first);
      ProcessStore(store, fetched, first);
      SummarisedRunMakesNoCalls(r1.store, fetched, second, IdsOf(fetched));
      NewPapersAreFirstSightings(r1.store, fetched, second);
      NoFirstSightingsWhenAllKnown(r1.store.papers.Keys, fetched, Process(r1.store, fetched, second).saved);
    }
  }
}
