/** The SQLite store of `DatabaseManager`, abstracted to its three tables:
    `papers` (keyed by arXiv id), `authors` (an auto-increment id per unique
    name) and the `paper_authors` link table. Every operation is a pure
    state transition. */
module Storage {
  import opened Wrappers
  import opened Papers
  import opened Time

  /** The `papers` table the store was created with. `Original` is the table
      as declared, with no `llm_summary` or `key_insights` column, so
      `save_paper` never writes them and `get_paper` never reads them.
      `WithIntelligence` is the corrected store: the table has both columns,
      `save_paper` writes them and `get_paper` reads them back. */
  datatype Schema = Original | WithIntelligence

  /** One `papers` row without its key. Under `Original` the two intelligence
      cells stand for columns that do not exist and are always written `None`. */
  datatype Row = Row(
    title: string,
    summary: string,
    publishedDate: Timestamp,
    updatedDate: Timestamp,
    primaryCategory: string,
    categories: seq<string>,
    pdfUrl: Option<string>,
    llmSummary: Option<string>,
    keyInsights: Option<string>)

  /** One `paper_authors` row; its primary key is the whole pair. */
  datatype Link = Link(paperId: string, authorId: nat)

  /** `authorNames[i]` is the author whose AUTOINCREMENT id is `i + 1`. */
  datatype Store = Store(
    schema: Schema,
    papers: map<string, Row>,
    authorNames: seq<string>,
    links: set<Link>)

  predicate Distinct(xs: seq<string>) {
    forall i, j :: 0 <= i < j < |xs| ==> xs[i] != xs[j]
  }

  function Elems(xs: seq<string>): set<string> {
    set x | x in xs
  }

  /** The table invariants: author names are UNIQUE, and every link points
      at a registered author and at a stored paper. */
  predicate Valid(s: Store) {
    && Distinct(s.authorNames)
    && (forall l :: l in s.links ==> 1 <= l.authorId <= |s.authorNames| && l.paperId in s.papers)
  }

  /** `_init_db` on a fresh database file: three empty tables. */
  function InitDb(schema: Schema): (s: Store)
    ensures Valid(s) && s.schema == schema
    ensures |s.papers| == 0 && |s.authorNames| == 0 && |s.links| == 0
  {
    Store(schema, map[], [], {})
  }

  /** The column values `save_paper` writes for `p`. */
  function RowOf(schema: Schema, p: Paper): (r: Row)
    ensures r.title == p.title && r.summary == p.summary && r.categories == p.categories
    ensures r.publishedDate == p.publishedDate && r.updatedDate == p.updatedDate
    ensures r.primaryCategory == p.primaryCategory && r.pdfUrl == p.pdfUrl
    ensures schema.Original? ==> r.llmSummary == None && r.keyInsights == None
    ensures schema.WithIntelligence? ==> r.llmSummary == p.llmSummary && r.keyInsights == p.keyInsights
  {
    Row(p.title, p.summary, p.publishedDate, p.updatedDate, p.primaryCategory,
        p.categories, p.pdfUrl,
        if schema.WithIntelligence? then p.llmSummary else None,
        if schema.WithIntelligence? then p.keyInsights else None)
  }

  /** `INSERT OR IGNORE INTO authors (name)`: the registry only grows, and a
      name already present keeps its place and hence its id. */
  function InsertAuthor(names: seq<string>, name: string): (r: seq<string>)
    ensures name in r
    ensures names <= r && |r| <= |names| + 1
    ensures name in names ==> r == names
    ensures forall x :: x in r ==> x in names || x == name
    ensures Distinct(names) ==> Distinct(r)
  {
    if name in names then names else names + [name]
  }

  /** `SELECT id FROM authors WHERE name = ?`. */
  function AuthorId(names: seq<string>, name: string): (id: nat)
    requires name in names
    ensures 1 <= id <= |names| && names[id - 1] == name
    ensures forall i :: 0 <= i < id - 1 ==> names[i] != name
  {
    if names[0] == name then 1 else 1 + AuthorId(names[1..], name)
  }

  /** Under UNIQUE names, the id of the name at position `i` is `i + 1`. */
  lemma AuthorIdOfPosition(names: seq<string>, i: nat)
    requires Distinct(names) && i < |names|
    ensures AuthorId(names, names[i]) == i + 1
  {
  }

  /** One iteration of the author loop of `save_paper`. */
  function LinkAuthor(s: Store, pid: string, name: string): (t: Store)
    ensures t.schema == s.schema && t.papers == s.papers
    ensures s.authorNames <= t.authorNames && s.links <= t.links
    ensures name in t.authorNames && Link(pid, AuthorId(t.authorNames, name)) in t.links
    ensures forall l :: l in t.links && l !in s.links ==> l.paperId == pid
  {
    var names := InsertAuthor(s.authorNames, name);
    s.(authorNames := names, links := s.links + {Link(pid, AuthorId(names, name))})
  }

  /** The whole author loop, in list order. */
  function LinkAuthors(s: Store, pid: string, names: seq<string>): (t: Store)
    ensures t.schema == s.schema && t.papers == s.papers
    ensures s.authorNames <= t.authorNames && s.links <= t.links
    ensures forall l :: l in t.links && l !in s.links ==> l.paperId == pid
    decreases |names|
  {
    if names == [] then s else LinkAuthors(LinkAuthor(s, pid, names[0]), pid, names[1..])
  }

  /** `save_paper`: INSERT OR REPLACE the row, then link every author. */
  function SavePaper(s: Store, p: Paper): (t: Store)
    ensures t.schema == s.schema
    ensures t.papers == s.papers[p.arxivId := RowOf(s.schema, p)]
    ensures s.authorNames <= t.authorNames
    ensures s.links <= t.links
  {
    LinkAuthors(s.(papers := s.papers[p.arxivId := RowOf(s.schema, p)]), p.arxivId, p.authors)
  }

  /** The names linked to `pid`, as a set. */
  function LinkedSet(names: seq<string>, links: set<Link>, pid: string): set<string> {
    set i | 0 <= i < |names| && Link(pid, i + 1) in links :: names[i]
  }

  /** The author set a lookup of `pid` yields. */
  function AuthorsOf(s: Store, pid: string): set<string> {
    LinkedSet(s.authorNames, s.links, pid)
  }

  /** The author query of `get_paper`, in ascending author id (the SQL has no
      ORDER BY; only the set and the absence of repeats are relied on). */
  function LinkedAuthors(names: seq<string>, links: set<Link>, pid: string): (r: seq<string>)
    ensures |r| <= |names|
    ensures forall a :: a in r ==> a in names
    ensures Distinct(names) ==> Distinct(r)
    decreases |names|
  {
    if names == [] then []
    else
      var k := |names|;
      var front := LinkedAuthors(names[..k - 1], links, pid);
      assert Distinct(names) ==> names[k - 1] !in names[..k - 1];
      front + (if Link(pid, k) in links then [names[k - 1]] else [])
  }

  /** `get_paper`: the row plus its linked authors, or `None` for an unknown
      id. Under `Original` there is nothing to read the intelligence fields
      from, so they are absent. */
  function GetPaper(s: Store, id: string): (r: Option<Paper>)
    ensures r.None? <==> id !in s.papers
    ensures r.Some? ==> r.value.arxivId == id
    ensures r.Some? && s.schema.Original? ==> r.value.llmSummary == None && r.value.keyInsights == None
    ensures r.Some? && Distinct(s.authorNames) ==> Distinct(r.value.authors)
  {
    if id !in s.papers then None
    else
      var row := s.papers[id];
      Some(Paper(id, row.title, LinkedAuthors(s.authorNames, s.links, id), row.summary,
                 row.publishedDate, row.updatedDate, row.primaryCategory, row.categories,
                 row.pdfUrl,
                 if s.schema.WithIntelligence? then row.llmSummary else None,
                 if s.schema.WithIntelligence? then row.keyInsights else None))
  }

  /** `count_papers`: `SELECT COUNT(*) FROM papers`. */
  function CountPapers(s: Store): (n: nat)
    ensures n == |s.papers.Keys|
    ensures n == 0 <==> s.papers == map[]
  {
    |s.papers|
  }

  /** The ids of a sequence of papers. */
  function IdsOf(ps: seq<Paper>): set<string> {
    set i | 0 <= i < |ps| :: ps[i].arxivId
  }

  /** `save_paper` applied to each paper of `ps`, in order. */
  function SaveAll(s: Store, ps: seq<Paper>): Store
    decreases |ps|
  {
    if ps == [] then s else SavePaper(SaveAll(s, ps[..|ps| - 1]), ps[|ps| - 1])
  }

  /** Every author name any save of `pid` in `ps` listed. */
  function AuthorsSaved(ps: seq<Paper>, pid: string): set<string>
    decreases |ps|
  {
    if ps == [] then {}
    else
      var last := ps[|ps| - 1];
      AuthorsSaved(ps[..|ps| - 1], pid) + (if last.arxivId == pid then Elems(last.authors) else {})
  }

  // ---------------------------------------------------------------------
  // The author query

  lemma LinkedSetSnoc(names: seq<string>, links: set<Link>, pid: string)
    requires names != []
    ensures LinkedSet(names, links, pid)
         == LinkedSet(names[..|names| - 1], links, pid)
            + (if Link(pid, |names|) in links then {names[|names| - 1]} else {})
  {
    var k := |names|;
    var front := names[..k - 1];
    forall a | a in LinkedSet(names, links, pid)
      ensures a in LinkedSet(front, links, pid) || (Link(pid, k) in links && a == names[k - 1])
    {
      var i :| 0 <= i < k && Link(pid, i + 1) in links && names[i] == a;
      if i < k - 1 {
        assert front[i] == a;
      }
    }
    forall a | a in LinkedSet(front, links, pid)
      ensures a in LinkedSet(names, links, pid)
    {
      var i :| 0 <= i < k - 1 && Link(pid, i + 1) in links && front[i] == a;
      assert names[i] == a;
    }
    if Link(pid, k) in links {
      assert names[k - 1] in LinkedSet(names, links, pid);
    }
  }

  /** The author list `get_paper` returns holds exactly the linked names. */
  lemma {:induction false} LinkedAuthorsElems(names: seq<string>, links: set<Link>, pid: string)
    ensures Elems(LinkedAuthors(names, links, pid)) == LinkedSet(names, links, pid)
    decreases |names|
  {
    if names != [] {
      var k := |names|;
      LinkedAuthorsElems(names[..k - 1], links, pid);
      LinkedSetSnoc(names, links, pid);
      var front := LinkedAuthors(names[..k - 1], links, pid);
      var tail := if Link(pid, k) in links then [names[k - 1]] else [];
      assert LinkedAuthors(names, links, pid) == front + tail;
      assert Elems(front + tail) == Elems(front) + Elems(tail);
    }
  }

  /** The author query reads only the links of `pid` with ids in range. */
  lemma {:induction false} LinkedAuthorsAgree(names: seq<string>, links: set<Link>, links': set<Link>, pid: string)
    requires forall i :: 1 <= i <= |names| ==> (Link(pid, i) in links <==> Link(pid, i) in links')
    ensures LinkedAuthors(names, links, pid) == LinkedAuthors(names, links', pid)
    decreases |names|
  {
    if names != [] {
      LinkedAuthorsAgree(names[..|names| - 1], links, links', pid);
    }
  }

  /** Appending authors none of whom is linked to `pid` leaves its author list alone. */
  lemma {:induction false} LinkedAuthorsExtend(names: seq<string>, names': seq<string>, links: set<Link>, pid: string)
    requires names <= names'
    requires forall i :: |names| < i <= |names'| ==> Link(pid, i) !in links
    ensures LinkedAuthors(names', links, pid) == LinkedAuthors(names, links, pid)
    decreases |names'|
  {
    if |names'| > |names| {
      var k := |names'|;
      assert names <= names'[..k - 1];
      LinkedAuthorsExtend(names, names'[..k - 1], links, pid);
    } else {
      assert names' == names;
    }
  }

  // ---------------------------------------------------------------------
  // save_paper

  /** One author-loop iteration keeps the invariants, and links exactly `name` to `pid`. */
  lemma LinkAuthorSets(s: Store, pid: string, name: string)
    requires Valid(s) && pid in s.papers
    ensures Valid(LinkAuthor(s, pid, name))
    ensures forall q :: AuthorsOf(LinkAuthor(s, pid, name), q)
                     == AuthorsOf(s, q) + (if q == pid then {name} else {})
  {
    var t := LinkAuthor(s, pid, name);
    var id := AuthorId(t.authorNames, name);
    assert t.links == s.links + {Link(pid, id)};
    forall q
      ensures AuthorsOf(t, q) == AuthorsOf(s, q) + (if q == pid then {name} else {})
    {
      forall a | a in AuthorsOf(t, q)
        ensures a in AuthorsOf(s, q) || (q == pid && a == name)
      {
        var i :| 0 <= i < |t.authorNames| && Link(q, i + 1) in t.links && t.authorNames[i] == a;
        if Link(q, i + 1) in s.links {
          assert s.authorNames[i] == a;
        }
      }
      forall a | a in AuthorsOf(s, q)
        ensures a in AuthorsOf(t, q)
      {
        var i :| 0 <= i < |s.authorNames| && Link(q, i + 1) in s.links && s.authorNames[i] == a;
        assert t.authorNames[i] == a;
      }
      if q == pid {
        assert t.authorNames[id - 1] == name;
        assert name in AuthorsOf(t, q);
      }
    }
  }

  /** The author loop keeps the invariants and links every listed name to `pid`. */
  lemma {:induction false} LinkAuthorsSets(s: Store, pid: string, names: seq<string>)
    requires Valid(s) && pid in s.papers
    ensures Valid(LinkAuthors(s, pid, names))
    ensures forall q :: AuthorsOf(LinkAuthors(s, pid, names), q)
                     == AuthorsOf(s, q) + (if q == pid then Elems(names) else {})
    decreases |names|
  {
    if names != [] {
      var s1 := LinkAuthor(s, pid, names[0]);
      LinkAuthorSets(s, pid, names[0]);
      LinkAuthorsSets(s1, pid, names[1..]);
      ElemsCons(names);
      assert LinkAuthors(s, pid, names) == LinkAuthors(s1, pid, names[1..]);
    }
  }

  lemma ElemsCons(names: seq<string>)
    requires names != []
    ensures Elems(names) == {names[0]} + Elems(names[1..])
  {
    assert names == [names[0]] + names[1..];
  }

  /** After `save_paper(p)` the store is still well formed; the author set of
      `p`'s id gains exactly `p.authors`, and no other id's author set changes. */
  lemma SaveLinksAuthors(s: Store, p: Paper)
    requires Valid(s)
    ensures Valid(SavePaper(s, p))
    ensures forall q :: AuthorsOf(SavePaper(s, p), q)
                     == AuthorsOf(s, q) + (if q == p.arxivId then Elems(p.authors) else {})
  {
    var s0 := s.(papers := s.papers[p.arxivId := RowOf(s.schema, p)]);
    assert Valid(s0);
    assert forall q :: AuthorsOf(s0, q) == AuthorsOf(s, q);
    LinkAuthorsSets(s0, p.arxivId, p.authors);
  }

  /** A save never changes the id of an author already registered: the
      INSERT OR IGNORE leaves the row alone, so the SELECT finds the same id. */
  lemma SaveKeepsAuthorIds(s: Store, p: Paper, name: string)
    requires Valid(s) && name in s.authorNames
    ensures name in SavePaper(s, p).authorNames
    ensures AuthorId(SavePaper(s, p).authorNames, name) == AuthorId(s.authorNames, name)
  {
    var t := SavePaper(s, p);
    SaveLinksAuthors(s, p);
    var i :| 0 <= i < |s.authorNames| && s.authorNames[i] == name;
    assert t.authorNames[i] == name;
    AuthorIdOfPosition(s.authorNames, i);
    AuthorIdOfPosition(t.authorNames, i);
  }

  /** `get_paper(p.arxiv_id)` right after `save_paper(p)`: present, with `p`'s
      column values, its author set grown by `p.authors`, and the
      intelligence fields only when the table has columns for them. */
  lemma SaveThenGet(s: Store, p: Paper)
    requires Valid(s)
    ensures GetPaper(SavePaper(s, p), p.arxivId).Some?
    ensures var q := GetPaper(SavePaper(s, p), p.arxivId).value;
      && q.arxivId == p.arxivId && q.title == p.title && q.summary == p.summary
      && q.publishedDate == p.publishedDate && q.updatedDate == p.updatedDate
      && q.primaryCategory == p.primaryCategory && q.categories == p.categories
      && q.pdfUrl == p.pdfUrl
      && Elems(q.authors) == AuthorsOf(s, p.arxivId) + Elems(p.authors)
      && Distinct(q.authors)
      && q.llmSummary == (if s.schema.WithIntelligence? then p.llmSummary else None)
      && q.keyInsights == (if s.schema.WithIntelligence? then p.keyInsights else None)
  {
    var t := SavePaper(s, p);
    SaveLinksAuthors(s, p);
    LinkedAuthorsElems(t.authorNames, t.links, p.arxivId);
  }

  /** `save_paper(p)` changes what `get_paper` returns for no other id. */
  lemma SaveLeavesOtherPapers(s: Store, p: Paper, id: string)
    requires Valid(s) && id != p.arxivId
    ensures GetPaper(SavePaper(s, p), id) == GetPaper(s, id)
  {
    var t := SavePaper(s, p);
    if id in s.papers {
      LinkedAuthorsAgree(t.authorNames, t.links, s.links, id);
      LinkedAuthorsExtend(s.authorNames, t.authorNames, s.links, id);
    }
  }

  /** A count is the number of distinct elements of a repeat-free list. */
  lemma {:induction false} DistinctMultiset(xs: seq<string>)
    requires Distinct(xs)
    ensures forall x :: multiset(xs)[x] == (if x in xs then 1 else 0)
    decreases |xs|
  {
    if xs != [] {
      var k := |xs|;
      assert xs == xs[..k - 1] + [xs[k - 1]];
      DistinctMultiset(xs[..k - 1]);
      assert xs[k - 1] !in xs[..k - 1];
      forall x
        ensures multiset(xs)[x] == (if x in xs then 1 else 0)
      {
        assert multiset(xs) == multiset(xs[..k - 1]) + multiset{xs[k - 1]};
        assert x in xs <==> x in xs[..k - 1] || x == xs[k - 1];
      }
    }
  }

  /** Storing a paper under a fresh id and reading it back yields its author
      list up to order, when that list has no repeats. */
  lemma FreshSaveReturnsSameAuthors(s: Store, p: Paper)
    requires Valid(s) && p.arxivId !in s.papers && Distinct(p.authors)
    ensures multiset(GetPaper(SavePaper(s, p), p.arxivId).value.authors) == multiset(p.authors)
  {
    SaveThenGet(s, p);
    assert AuthorsOf(s, p.arxivId) == {};
    var q := GetPaper(SavePaper(s, p), p.arxivId).value;
    DistinctMultiset(q.authors);
    DistinctMultiset(p.authors);
    assert forall x :: x in q.authors <==> x in p.authors by {
      forall x ensures x in q.authors <==> x in p.authors {
        assert x in q.authors <==> x in Elems(q.authors);
        assert x in p.authors <==> x in Elems(p.authors);
      }
    }
    assert forall x :: multiset(q.authors)[x] == multiset(p.authors)[x];
  }

  /** `count_papers` grows by one exactly when the id is new. */
  lemma SaveCount(s: Store, p: Paper)
    ensures CountPapers(SavePaper(s, p)) == CountPapers(s) + (if p.arxivId in s.papers then 0 else 1)
  {
  }

  /** Saving twice under one id keeps one record, and the second save's
      columns win. */
  lemma UpsertReplaces(s: Store, p: Paper, p2: Paper)
    requires Valid(s) && p2.arxivId == p.arxivId
    ensures CountPapers(SavePaper(SavePaper(s, p), p2)) == CountPapers(SavePaper(s, p))
    ensures SavePaper(SavePaper(s, p), p2).papers[p.arxivId] == RowOf(s.schema, p2)
    ensures var q := GetPaper(SavePaper(SavePaper(s, p), p2), p.arxivId).value;
      && q.title == p2.title && q.summary == p2.summary
      && q.publishedDate == p2.publishedDate && q.updatedDate == p2.updatedDate
      && q.primaryCategory == p2.primaryCategory && q.categories == p2.categories
      && q.pdfUrl == p2.pdfUrl
      && Elems(q.authors) == AuthorsOf(s, p.arxivId) + Elems(p.authors) + Elems(p2.authors)
  {
    var s1 := SavePaper(s, p);
    SaveLinksAuthors(s, p);
    SaveThenGet(s1, p2);
  }

  // ---------------------------------------------------------------------
  // Sequences of saves

  lemma IdsOfSnoc(ps: seq<Paper>)
    requires ps != []
    ensures IdsOf(ps) == IdsOf(ps[..|ps| - 1]) + {ps[|ps| - 1].arxivId}
  {
    var k := |ps|;
    forall x | x in IdsOf(ps) ensures x in IdsOf(ps[..k - 1]) + {ps[k - 1].arxivId} {
      var i :| 0 <= i < k && ps[i].arxivId == x;
      if i < k - 1 { assert ps[..k - 1][i].arxivId == x; }
    }
    forall x | x in IdsOf(ps[..k - 1]) ensures x in IdsOf(ps) {
      var i :| 0 <= i < k - 1 && ps[..k - 1][i].arxivId == x;
      assert ps[i].arxivId == x;
    }
  }

  /** A run of saves stores exactly the ids saved (on top of those already
      there), keeps the invariants, and leaves each id linked to the union of
      the author lists of all its saves: links are never removed. */
  lemma {:induction false} SaveAllSpec(s: Store, ps: seq<Paper>)
    requires Valid(s)
    ensures Valid(SaveAll(s, ps))
    ensures SaveAll(s, ps).schema == s.schema
    ensures SaveAll(s, ps).papers.Keys == s.papers.Keys + IdsOf(ps)
    ensures forall q :: AuthorsOf(SaveAll(s, ps), q) == AuthorsOf(s, q) + AuthorsSaved(ps, q)
    decreases |ps|
  {
    if ps == [] {
      assert IdsOf(ps) == {};
    } else {
      var k := |ps|;
      SaveAllSpec(s, ps[..k - 1]);
      SaveLinksAuthors(SaveAll(s, ps[..k - 1]), ps[k - 1]);
      IdsOfSnoc(ps);
    }
  }

  /** From fresh tables, `count_papers` is the number of distinct ids ever saved. */
  lemma CountIsDistinctIdsSaved(schema: Schema, ps: seq<Paper>)
    ensures CountPapers(SaveAll(InitDb(schema), ps)) == |IdsOf(ps)|
  {
    SaveAllSpec(InitDb(schema), ps);
    assert SaveAll(InitDb(schema), ps).papers.Keys == IdsOf(ps);
  }

  /** From fresh tables, the author set read back for a saved id is the union
      of the author lists of every save of that id, earlier ones included. */
  lemma RetrievedAuthorsAreUnion(schema: Schema, ps: seq<Paper>, id: string)
    requires id in IdsOf(ps)
    ensures GetPaper(SaveAll(InitDb(schema), ps), id).Some?
    ensures Elems(GetPaper(SaveAll(InitDb(schema), ps), id).value.authors) == AuthorsSaved(ps, id)
  {
    var t := SaveAll(InitDb(schema), ps);
    SaveAllSpec(InitDb(schema), ps);
    assert AuthorsOf(InitDb(schema), id) == {};
    LinkedAuthorsElems(t.authorNames, t.links, id);
  }
}
