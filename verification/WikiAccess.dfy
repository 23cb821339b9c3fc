/** Who may read and write a wiki page, and the agreement with what search may return. */
module WikiAccess {
  import opened Prelude

  const ACCESS_READ_WRITE: string := "read_write"

  datatype Access = Read | ReadWrite

  datatype Link = Link(ownerProjectId: string, tagName: string, accessLevel: string)

  /** A caller's own project, its links to others, and whether links may grant writing. */
  datatype Sharing = Sharing(callerProjectId: string, links: seq<Link>, crossProjectWrites: bool, callerActive: bool)

  datatype Page = Page(pageId: string, projectId: string)

  // ---- Access ----

  predicate Reaches(link: Link, projectId: string, tags: seq<string>) {
    link.ownerProjectId == projectId && link.tagName in tags
  }

  predicate MayRead(sharing: Sharing, projectId: string, tags: seq<string>) {
    sharing.callerActive
    && (projectId == sharing.callerProjectId || exists link :: link in sharing.links && Reaches(link, projectId, tags))
  }

  predicate MayWrite(sharing: Sharing, projectId: string, tags: seq<string>) {
    sharing.callerActive
    && (projectId == sharing.callerProjectId
        || (sharing.crossProjectWrites
            && exists link ::
                 link in sharing.links && Reaches(link, projectId, tags) && link.accessLevel == ACCESS_READ_WRITE))
  }

  /** What the links grant, whatever their order. */
  function Granted(sharing: Sharing, projectId: string, tags: seq<string>): Option<Access> {
    if MayWrite(sharing, projectId, tags) then Some(ReadWrite)
    else if MayRead(sharing, projectId, tags) then Some(Read)
    else None
  }

  method AccessTo(sharing: Sharing, projectId: string, tags: seq<string>) returns (access: Option<Access>)
    ensures access == Granted(sharing, projectId, tags)
    ensures access.Some? <==> MayRead(sharing, projectId, tags)
    ensures access == Some(ReadWrite) <==> MayWrite(sharing, projectId, tags)
  {
    if !sharing.callerActive {
      return None;
    }
    if projectId == sharing.callerProjectId {
      return Some(ReadWrite);
    }
    access := None;
    for i := 0 to |sharing.links|
      invariant access == None || access == Some(Read)
      invariant access == Some(Read) <==> exists k :: 0 <= k < i && Reaches(sharing.links[k], projectId, tags)
      invariant forall k :: 0 <= k < i && Reaches(sharing.links[k], projectId, tags) ==>
                  !(sharing.crossProjectWrites && sharing.links[k].accessLevel == ACCESS_READ_WRITE)
    {
      var link := sharing.links[i];
      if link.ownerProjectId != projectId {
        continue;
      }
      if link.tagName !in tags {
        continue;
      }
      if link.accessLevel == ACCESS_READ_WRITE && sharing.crossProjectWrites {
        return Some(ReadWrite);
      }
      access := Some(Read);
    }
    forall link | link in sharing.links && Reaches(link, projectId, tags)
      ensures access == Some(Read) && !(sharing.crossProjectWrites && link.accessLevel == ACCESS_READ_WRITE)
    {
      var k :| 0 <= k < |sharing.links| && sharing.links[k] == link;
      assert Reaches(sharing.links[k], projectId, tags);
    }
  }

  /** Access depends on which links there are, not on their order or repetition. */
  lemma OrderDoesNotMatter(a: Sharing, b: Sharing, projectId: string, tags: seq<string>)
    requires a.callerProjectId == b.callerProjectId && a.crossProjectWrites == b.crossProjectWrites
    requires a.callerActive == b.callerActive && (forall link :: link in a.links <==> link in b.links)
    ensures Granted(a, projectId, tags) == Granted(b, projectId, tags)
  {
  }

  // ---- Reachable projects ----

  predicate Distinct<T(==)>(s: seq<T>) {
    forall i, j :: 0 <= i < j < |s| ==> s[i] != s[j]
  }

  method ReachableProjectIds(sharing: Sharing) returns (ids: seq<string>)
    ensures !sharing.callerActive ==> ids == []
    ensures sharing.callerActive ==> ids != [] && ids[0] == sharing.callerProjectId
    ensures Distinct(ids)
    ensures forall p :: p in ids <==>
              && sharing.callerActive
              && (p == sharing.callerProjectId || exists link :: link in sharing.links && link.ownerProjectId == p)
  {
    if !sharing.callerActive {
      return [];
    }
    ids := [sharing.callerProjectId];
    for i := 0 to |sharing.links|
      invariant ids != [] && ids[0] == sharing.callerProjectId && Distinct(ids)
      invariant forall p :: p in ids <==>
                  p == sharing.callerProjectId || exists k :: 0 <= k < i && sharing.links[k].ownerProjectId == p
    {
      var owner := sharing.links[i].ownerProjectId;
      if owner !in ids {
        ids := ids + [owner];
      }
    }
  }

  // ---- Search scope ----

  datatype SearchScope = SearchScope(projects: seq<string>, tagged: seq<(string, string)>)

  function TagPairs(links: seq<Link>): seq<(string, string)> {
    seq(|links|, i requires 0 <= i < |links| => (links[i].ownerProjectId, links[i].tagName))
  }

  function ScopeOf(sharing: Sharing): SearchScope {
    if !sharing.callerActive then SearchScope([], [])
    else SearchScope([sharing.callerProjectId], TagPairs(sharing.links))
  }

  /** A page as indexed. */
  datatype Document = Document(projectId: string, tags: seq<string>)

  /** The boolean queries the index evaluates. */
  datatype Query =
    | ProjectTerm(projectId: string)
    | TagTerm(tag: string)
    | ProjectSet(projectIds: seq<string>)
    | AllOf(musts: seq<Query>)
    | AnyOf(shoulds: seq<Query>)

  predicate Matches(q: Query, d: Document)
    decreases q
  {
    match q
    case ProjectTerm(p) => d.projectId == p
    case TagTerm(t) => t in d.tags
    case ProjectSet(ps) => d.projectId in ps
    case AllOf(musts) => forall k :: 0 <= k < |musts| ==> Matches(musts[k], d)
    case AnyOf(shoulds) => exists k :: 0 <= k < |shoulds| && Matches(shoulds[k], d)
  }

  /** A scope's own meaning: its projects' pages, and the pages carrying its tagged pairs. */
  predicate InScope(scope: SearchScope, d: Document) {
    d.projectId in scope.projects || exists t :: t in d.tags && (d.projectId, t) in scope.tagged
  }

  /** What a query absent or present lets through; no query matches nothing. */
  predicate Returned(q: Option<Query>, d: Document) {
    q.Some? && Matches(q.value, d)
  }

  lemma PairMatches(projectId: string, tag: string, d: Document)
    ensures Matches(AllOf([ProjectTerm(projectId), TagTerm(tag)]), d) <==> d.projectId == projectId && tag in d.tags
  {
    var musts := [ProjectTerm(projectId), TagTerm(tag)];
    assert Matches(musts[0], d) <==> d.projectId == projectId;
    assert Matches(musts[1], d) <==> tag in d.tags;
  }

  /** The clauses built so far let through exactly the documents they were built from. */
  ghost predicate ClausesMean(clauses: seq<Query>, projects: seq<string>, tagged: seq<(string, string)>) {
    forall d :: Matches(AnyOf(clauses), d) <==> InScope(SearchScope(projects, tagged), d)
  }

  lemma OneMoreClause(clauses: seq<Query>, clause: Query, d: Document)
    ensures Matches(AnyOf(clauses + [clause]), d) <==> Matches(AnyOf(clauses), d) || Matches(clause, d)
  {
    var more := clauses + [clause];
    if Matches(AnyOf(clauses), d) {
      var k :| 0 <= k < |clauses| && Matches(clauses[k], d);
      assert more[k] == clauses[k];
    }
    if Matches(clause, d) {
      assert more[|clauses|] == clause;
    }
    if Matches(AnyOf(more), d) {
      var k :| 0 <= k < |more| && Matches(more[k], d);
      assert k == |clauses| || more[k] == clauses[k];
    }
  }

  lemma PairJoins(clauses: seq<Query>, projects: seq<string>, tagged: seq<(string, string)>, pair: (string, string))
    requires ClausesMean(clauses, projects, tagged)
    ensures ClausesMean(clauses + [AllOf([ProjectTerm(pair.0), TagTerm(pair.1)])], projects, tagged + [pair])
  {
    var clause := AllOf([ProjectTerm(pair.0), TagTerm(pair.1)]);
    forall d ensures Matches(AnyOf(clauses + [clause]), d) <==> InScope(SearchScope(projects, tagged + [pair]), d) {
      OneMoreClause(clauses, clause, d);
      PairMatches(pair.0, pair.1, d);
      PairInScope(projects, tagged, pair, d);
    }
  }

  lemma PairInScope(projects: seq<string>, tagged: seq<(string, string)>, pair: (string, string), d: Document)
    ensures InScope(SearchScope(projects, tagged + [pair]), d) <==>
            InScope(SearchScope(projects, tagged), d) || (d.projectId == pair.0 && pair.1 in d.tags)
  {
    var more := tagged + [pair];
    assert forall p :: p in more <==> p in tagged || p == pair;
    if d.projectId == pair.0 && pair.1 in d.tags {
      assert (d.projectId, pair.1) in more;
    }
  }

  /** The boolean query for a scope lets through exactly the documents in it. */
  method ScopeQuery(scope: SearchScope) returns (q: Option<Query>)
    ensures forall d :: Returned(q, d) <==> InScope(scope, d)
  {
    hide Matches, InScope;
    if scope.projects == [] && scope.tagged == [] {
      EmptyScope();
      return None;
    }
    var clauses: seq<Query> := [];
    if scope.projects != [] {
      clauses := [ProjectSet(scope.projects)];
    }
    ProjectClause(scope.projects);
    assert scope.tagged[..0] == [];
    for i := 0 to |scope.tagged|
      invariant ClausesMean(clauses, scope.projects, scope.tagged[..i])
    {
      var pair := scope.tagged[i];
      PairJoins(clauses, scope.projects, scope.tagged[..i], pair);
      assert scope.tagged[..i + 1] == scope.tagged[..i] + [pair];
      clauses := clauses + [AllOf([ProjectTerm(pair.0), TagTerm(pair.1)])];
    }
    assert scope.tagged[..|scope.tagged|] == scope.tagged;
    q := Some(AnyOf(clauses));
  }

  lemma EmptyScope()
    ensures forall d :: !InScope(SearchScope([], []), d)
  {
  }

  lemma ProjectClause(projects: seq<string>)
    ensures ClausesMean(if projects != [] then [ProjectSet(projects)] else [], projects, [])
  {
    var clauses := if projects != [] then [ProjectSet(projects)] else [];
    forall d ensures Matches(AnyOf(clauses), d) <==> InScope(SearchScope(projects, []), d) {
      if projects != [] {
        assert Matches(clauses[0], d) <==> d.projectId in projects;
      }
    }
  }

  // ---- Narrowing ----

  function OnlyProject(projects: seq<string>, projectId: string): seq<string> {
    if projects == [] then []
    else (if projects[0] == projectId then [projects[0]] else []) + OnlyProject(projects[1..], projectId)
  }

  function OnlyPairs(tagged: seq<(string, string)>, projectId: string): seq<(string, string)> {
    if tagged == [] then []
    else (if tagged[0].0 == projectId then [tagged[0]] else []) + OnlyPairs(tagged[1..], projectId)
  }

  function NarrowedTo(scope: SearchScope, projectId: string): SearchScope {
    SearchScope(OnlyProject(scope.projects, projectId), OnlyPairs(scope.tagged, projectId))
  }

  lemma {:induction false} OnlyProjectIn(projects: seq<string>, projectId: string, p: string)
    ensures p in OnlyProject(projects, projectId) <==> p in projects && p == projectId
  {
    if projects != [] {
      OnlyProjectIn(projects[1..], projectId, p);
    }
  }

  lemma {:induction false} OnlyPairsIn(tagged: seq<(string, string)>, projectId: string, pair: (string, string))
    ensures pair in OnlyPairs(tagged, projectId) <==> pair in tagged && pair.0 == projectId
  {
    if tagged != [] {
      OnlyPairsIn(tagged[1..], projectId, pair);
    }
  }

  /** Narrowing intersects a scope with one project. */
  lemma NarrowedIntersects(scope: SearchScope, projectId: string, d: Document)
    ensures InScope(NarrowedTo(scope, projectId), d) <==> InScope(scope, d) && d.projectId == projectId
  {
    OnlyProjectIn(scope.projects, projectId, d.projectId);
    forall t | t in d.tags
      ensures (d.projectId, t) in OnlyPairs(scope.tagged, projectId) <==>
              (d.projectId, t) in scope.tagged && d.projectId == projectId
    {
      OnlyPairsIn(scope.tagged, projectId, (d.projectId, t));
    }
  }

  // ---- Agreement ----

  lemma PairOfLink(links: seq<Link>, projectId: string, tag: string)
    ensures (projectId, tag) in TagPairs(links) <==>
            exists link :: link in links && link.ownerProjectId == projectId && link.tagName == tag
  {
    var pairs := TagPairs(links);
    if (projectId, tag) in pairs {
      var k :| 0 <= k < |links| && pairs[k] == (projectId, tag);
      assert links[k] in links;
    }
    if exists link :: link in links && link.ownerProjectId == projectId && link.tagName == tag {
      var k :| 0 <= k < |links| && links[k].ownerProjectId == projectId && links[k].tagName == tag;
      assert pairs[k] == (projectId, tag);
    }
  }

  /** Search may return a page exactly when the caller may read it. */
  lemma ScopeAgrees(sharing: Sharing, projectId: string, tags: seq<string>)
    ensures InScope(ScopeOf(sharing), Document(projectId, tags)) <==> Granted(sharing, projectId, tags).Some?
  {
    if sharing.callerActive {
      forall t | t in tags
        ensures (projectId, t) in TagPairs(sharing.links) <==>
                exists link :: link in sharing.links && link.ownerProjectId == projectId && link.tagName == t
      {
        PairOfLink(sharing.links, projectId, t);
      }
    }
  }

  /** The page listing holds exactly the pages search may return, each once, with the access granted. */
  datatype VisiblePage = VisiblePage(page: Page, tags: seq<string>, access: Access)

  function TagsOf(tags: map<string, seq<string>>, page: Page): seq<string> {
    if page.pageId in tags then tags[page.pageId] else []
  }

  function VisibleAmong(sharing: Sharing, pages: seq<Page>, tags: map<string, seq<string>>): seq<VisiblePage> {
    if pages == [] then []
    else
      var last, t := pages[|pages| - 1], TagsOf(tags, pages[|pages| - 1]);
      var access := Granted(sharing, last.projectId, t);
      VisibleAmong(sharing, pages[..|pages| - 1], tags)
        + if access.Some? then [VisiblePage(last, t, access.value)] else []
  }

  predicate DistinctIds(pages: seq<Page>) {
    forall i, j :: 0 <= i < j < |pages| ==> pages[i].pageId != pages[j].pageId
  }

  /** The listing reads only reachable projects, and still misses no page the caller may read. */
  method VisiblePages(sharing: Sharing, pages: seq<Page>, allTags: map<string, seq<string>>)
    returns (out: seq<VisiblePage>)
    requires DistinctIds(pages)
    ensures out == VisibleAmong(sharing, pages, allTags)
  {
    var projectIds := ReachableProjectIds(sharing);
    var tags := allTags;
    out := [];
    for i := 0 to |pages|
      invariant out == VisibleAmong(sharing, pages[..i], allTags)
      invariant forall k :: i <= k < |pages| ==> TagsOf(tags, pages[k]) == TagsOf(allTags, pages[k])
    {
      var page := pages[i];
      assert pages[..i + 1][..i] == pages[..i];
      if page.projectId in projectIds {
        var pageTags := TagsOf(tags, page);
        tags := tags - {page.pageId};
        var access := AccessTo(sharing, page.projectId, pageTags);
        if access.Some? {
          out := out + [VisiblePage(page, pageTags, access.value)];
        }
      }
    }
    assert pages[..|pages|] == pages;
  }

  /** A page is listed exactly when it is one of the pages and in the search scope. */
  lemma {:induction false} ListedIffInScope(sharing: Sharing, pages: seq<Page>, tags: map<string, seq<string>>,
      page: Page)
    ensures (exists v :: v in VisibleAmong(sharing, pages, tags) && v.page == page) <==>
            page in pages && InScope(ScopeOf(sharing), Document(page.projectId, TagsOf(tags, page)))
  {
    hide Granted, InScope;
    if pages != [] {
      var init, last := pages[..|pages| - 1], pages[|pages| - 1];
      ListedIffInScope(sharing, init, tags, page);
      ScopeAgrees(sharing, last.projectId, TagsOf(tags, last));
      assert pages == init + [last];
      var before, after := VisibleAmong(sharing, init, tags), VisibleAmong(sharing, pages, tags);
      assert forall v :: v in before ==> v in after;
      if page == last && Granted(sharing, last.projectId, TagsOf(tags, last)).Some? {
        assert after[|after| - 1].page == page;
      }
    }
  }

  /** A listed page carries its own tags, and write access exactly when the caller may write it. */
  lemma {:induction false} ListedCarries(sharing: Sharing, pages: seq<Page>, tags: map<string, seq<string>>,
      v: VisiblePage)
    requires v in VisibleAmong(sharing, pages, tags)
    ensures v.tags == if v.page.pageId in tags then tags[v.page.pageId] else []
    ensures MayRead(sharing, v.page.projectId, v.tags)
    ensures v.access == ReadWrite <==> MayWrite(sharing, v.page.projectId, v.tags)
  {
    hide MayWrite, MayRead;
    var last := pages[|pages| - 1];
    if v in VisibleAmong(sharing, pages[..|pages| - 1], tags) {
      ListedCarries(sharing, pages[..|pages| - 1], tags, v);
    } else {
      if MayWrite(sharing, last.projectId, TagsOf(tags, last)) {
        WriteImpliesRead(sharing, last.projectId, TagsOf(tags, last));
      }
      assert v.page == last && v.tags == TagsOf(tags, last);
    }
  }

  lemma WriteImpliesRead(sharing: Sharing, projectId: string, tags: seq<string>)
    requires MayWrite(sharing, projectId, tags)
    ensures MayRead(sharing, projectId, tags)
  {
  }

  /** The listing follows the order of the pages, stretch by stretch. */
  lemma {:induction false} ListedAppend(sharing: Sharing, a: seq<Page>, b: seq<Page>, tags: map<string, seq<string>>)
    ensures VisibleAmong(sharing, a + b, tags) == VisibleAmong(sharing, a, tags) + VisibleAmong(sharing, b, tags)
  {
    hide Granted, TagsOf;
    if b == [] {
      assert a + b == a;
    } else {
      assert (a + b)[..|a + b| - 1] == a + b[..|b| - 1];
      ListedAppend(sharing, a, b[..|b| - 1], tags);
    }
  }
}
