/** Paged search over the registered tools at one catalog revision. */
module ToolSearch {
  import opened Options
  import opened Sorting
  import opened TextOrder
  import opened Registry
  import opened RegistryRuns

  const MAX_QUERY_CHARS := 256
  const MAX_RESULTS := 16
  const MAX_OFFSET := 4096
  const MAX_DESCRIPTION_CHARS := 512
  const HIDDEN := {SKILL_READ_TOOL_NAME, TOOL_SCHEMA_READ_TOOL_NAME, TOOL_SEARCH_TOOL_NAME}

  /** Scoring of a tool against a query: how many of the query's terms occur in its name or description. */
  type Scorer = (string, Spec) -> nat

  datatype Hit = Hit(score: nat, spec: Spec)

  /** What a response shows of a tool. */
  datatype Shown = Shown(name: string, description: string, effectClass: string, extensionId: string, descriptorHash: string)

  datatype Request = Request(query: string, limit: int, offset: int, revision: Option<int>)

  datatype SearchError = ArgumentsInvalid | CatalogMoved

  datatype Response =
    | Failed(error: SearchError)
    | Matches(hits: seq<Shown>, offset: int, nextOffset: Option<int>, hasMore: bool, revision: nat)

  // -------------------------------------------------------------------- the ranking

  /** Higher score first, then by name. */
  predicate Before(a: Hit, b: Hit) {
    a.score > b.score || (a.score == b.score && TextLess(a.spec.name, b.spec.name))
  }

  predicate IsHit(c: Catalog, query: string, score: Scorer, n: string) {
    n in c.tools && c.tools[n].spec.name !in HIDDEN && score(query, c.tools[n].spec) > 0
  }

  function HitOf(c: Catalog, query: string, score: Scorer, n: string): (r: Hit)
    requires n in c.tools
  {
    Hit(score(query, c.tools[n].spec), c.tools[n].spec)
  }

  /** `s` lists the hits among the named tools, and nothing else. */
  ghost predicate Covers(c: Catalog, query: string, score: Scorer, names: set<string>, s: seq<Hit>) {
    && (forall n :: n in names && IsHit(c, query, score, n) ==> HitOf(c, query, score, n) in s)
    && (forall h :: h in s ==> exists n :: n in names && IsHit(c, query, score, n) && h == HitOf(c, query, score, n))
  }

  /** `s` is the ranked list of a query over a catalog. */
  ghost predicate IsRanking(c: Catalog, query: string, score: Scorer, s: seq<Hit>) {
    Strict(s, Before) && Covers(c, query, score, c.tools.Keys, s)
  }

  lemma BeforeRanks()
    ensures Ranks(Before)
  {
    forall a, b ensures Before(a, b) ==> !Before(b, a) { TextTotal(a.spec.name, b.spec.name); }
    forall a, b, c ensures Before(c, a) ==> Before(b, a) || Before(c, b) { BeforeIsDense(a, b, c); }
  }

  lemma BeforeIsDense(a: Hit, b: Hit, c: Hit)
    ensures Before(c, a) ==> Before(b, a) || Before(c, b)
  {
    var x, y, z := a.spec.name, b.spec.name, c.spec.name;
    TextTotal(x, y);
    TextTotal(y, z);
    if TextLess(z, x) && TextLess(x, y) { TextTransitive(z, x, y); }
  }

  /** A query has one ranking. */
  lemma RankingIsUnique(c: Catalog, query: string, score: Scorer, a: seq<Hit>, b: seq<Hit>)
    requires IsRanking(c, query, score, a) && IsRanking(c, query, score, b)
    ensures a == b
  {
    BeforeRanks();
    StrictIsUnique(a, b, Before);
  }

  /** Hits in the order of the map, whatever that is, and then sorted. */
  method Rank(c: Catalog, query: string, score: Scorer) returns (ranked: seq<Hit>)
    requires Consistent(c)
    ensures IsRanking(c, query, score, ranked)
  {
    hide Consistent, Covers, IsHit, IsRanking;
    var hits: seq<Hit> := [];
    var left := c.tools.Keys;
    NothingCovers(c, query, score);
    assert c.tools.Keys - left == {};
    while left != {}
      invariant left <= c.tools.Keys
      invariant DistinctKeys(hits, NameOf) && Covers(c, query, score, c.tools.Keys - left, hits)
    {
      var n :| n in left;
      ghost var before := hits;
      if IsHit(c, query, score, n) {
        NamesDiffer(c, query, score, c.tools.Keys - left, hits, n);
        hits := hits + [HitOf(c, query, score, n)];
      }
      OneMoreTool(c, query, score, c.tools.Keys - left, before, n, hits);
      assert (c.tools.Keys - left) + {n} == c.tools.Keys - (left - {n});
      left := left - {n};
    }
    assert c.tools.Keys - {} == c.tools.Keys;
    ranked := Sort(hits, Before);
    SortedHitsRank(c, query, score, hits);
  }

  function NameOf(h: Hit): (name: string) {
    h.spec.name
  }

  lemma SortedHitsRank(c: Catalog, query: string, score: Scorer, hits: seq<Hit>)
    requires DistinctKeys(hits, NameOf) && Covers(c, query, score, c.tools.Keys, hits)
    ensures IsRanking(c, query, score, Sort(hits, Before))
  {
    hide IsHit, HitOf;
    SameMembers(Sort(hits, Before), hits);
    BeforeRanks();
    forall a, b ensures NameOf(a) != NameOf(b) ==> Before(a, b) || Before(b, a) { TextTotal(a.spec.name, b.spec.name); }
    SortIsStrict(hits, Before, NameOf);
  }

  lemma NamesDiffer(c: Catalog, query: string, score: Scorer, names: set<string>, s: seq<Hit>, n: string)
    requires Consistent(c) && n in c.tools && n !in names && names <= c.tools.Keys && Covers(c, query, score, names, s)
    ensures forall x :: x in s ==> x.spec.name != c.tools[n].spec.name
  {
    forall x | x in s ensures x.spec.name != c.tools[n].spec.name {
      var m :| m in names && IsHit(c, query, score, m) && x == HitOf(c, query, score, m);
      assert OwnedBy(c.manifests, c.tools[m], m) && OwnedBy(c.manifests, c.tools[n], n);
    }
  }

  lemma NothingCovers(c: Catalog, query: string, score: Scorer)
    ensures Covers(c, query, score, {}, [])
  {
  }

  lemma OneMoreTool(c: Catalog, query: string, score: Scorer, names: set<string>, s: seq<Hit>, n: string, t: seq<Hit>)
    requires n in c.tools && Covers(c, query, score, names, s)
    requires IsHit(c, query, score, n) ==> forall x :: x in t <==> x in s || x == HitOf(c, query, score, n)
    requires !IsHit(c, query, score, n) ==> t == s
    ensures Covers(c, query, score, names + {n}, t)
  {
    forall h | h in t ensures exists m :: m in names + {n} && IsHit(c, query, score, m) && h == HitOf(c, query, score, m) {
      if h in s {
        var m :| m in names && IsHit(c, query, score, m) && h == HitOf(c, query, score, m);
        assert m in names + {n};
      } else {
        assert n in names + {n};
      }
    }
  }

  // ----------------------------------------------------------------------- one page

  predicate ArgumentsOk(r: Request) {
    2 <= |r.query| <= MAX_QUERY_CHARS && 1 <= r.limit <= MAX_RESULTS && 0 <= r.offset <= MAX_OFFSET
  }

  /** Descriptions are cut to the first 512 characters. */
  function Show(h: Hit): (r: Shown) {
    var d := h.spec.description;
    Shown(h.spec.name, if |d| > MAX_DESCRIPTION_CHARS then d[..MAX_DESCRIPTION_CHARS] else d,
          h.spec.effectClass, h.spec.extensionId, h.spec.descriptorHash)
  }

  function ShowAll(s: seq<Hit>): (r: seq<Shown>)
    ensures |r| == |s| && forall i :: 0 <= i < |r| ==> r[i] == Show(s[i])
  {
    seq(|s|, i requires 0 <= i < |s| => Show(s[i]))
  }

  /** `ranked[offset:offset + limit]`, clipped as Python clips it. */
  function Page<T>(shown: seq<T>, offset: nat, limit: nat): (p: seq<T>)
  {
    if offset >= |shown| then [] else if offset + limit >= |shown| then shown[offset..] else shown[offset..offset + limit]
  }

  function Respond(shown: seq<Shown>, r: Request, revision: nat): (result: Response) {
    if !ArgumentsOk(r) then Failed(ArgumentsInvalid)
    else if r.revision.Some? && r.revision.value != revision then Failed(CatalogMoved)
    else
      var next := r.offset + |Page(shown, r.offset, r.limit)|;
      var more := next < |shown|;
      Matches(Page(shown, r.offset, r.limit), r.offset, if more then Some(next) else None, more, revision)
  }

  /** `response` answers `r` over a catalog. */
  ghost predicate Answers(c: Catalog, r: Request, score: Scorer, response: Response) {
    exists ranked :: IsRanking(c, r.query, score, ranked) && response == Respond(ShowAll(ranked), r, c.revision)
  }

  /** `_read_tool_search`. */
  method ReadToolSearch(c: Catalog, r: Request, score: Scorer) returns (response: Response)
    requires Consistent(c)
    ensures response == Failed(ArgumentsInvalid) <==> !ArgumentsOk(r)
    ensures response == Failed(CatalogMoved) <==> ArgumentsOk(r) && r.revision.Some? && r.revision.value != c.revision
    ensures response.Matches? ==> Answers(c, r, score, response)
  {
    if !(2 <= |r.query| <= MAX_QUERY_CHARS) || !(1 <= r.limit <= MAX_RESULTS) || !(0 <= r.offset <= MAX_OFFSET) {
      return Failed(ArgumentsInvalid);
    }
    if r.revision.Some? && r.revision.value != c.revision { return Failed(CatalogMoved); }
    var ranked := Rank(c, r.query, score);
    var page := Page(ranked, r.offset, r.limit);
    var next := r.offset + |page|;
    response := Matches(ShowAll(page), r.offset, if next < |ranked| then Some(next) else None, next < |ranked|, c.revision);
    ShowPage(ranked, r.offset, r.limit);
    assert response == Respond(ShowAll(ranked), r, c.revision);
  }

  lemma ShowPage(ranked: seq<Hit>, offset: nat, limit: nat)
    ensures ShowAll(Page(ranked, offset, limit)) == Page(ShowAll(ranked), offset, limit)
  {
  }

  // -------------------------------------------------------------- following the pages

  lemma {:induction false} HitsFitNames(c: Catalog, query: string, score: Scorer, s: seq<Hit>, names: set<string>)
    requires Strict(s, Before) && names <= c.tools.Keys
    requires forall h :: h in s ==> exists n :: n in names && h == HitOf(c, query, score, n)
    ensures |s| <= |names|
    decreases |s|
  {
    if s != [] {
      assert s[0] in s;
      var n :| n in names && s[0] == HitOf(c, query, score, n);
      forall h | h in s[1..] ensures exists m :: m in names - {n} && h == HitOf(c, query, score, m) {
        BeforeRanks();
        TailMembers(s, h, Before);
        var m :| m in names && h == HitOf(c, query, score, m);
        assert m in names - {n};
      }
      HitsFitNames(c, query, score, s[1..], names - {n});
    }
  }

  /** Every offset a response hands out is accepted in a next request, and moves on. */
  lemma NextOffsetIsLegal(c: Catalog, r: Request, score: Scorer, ranked: seq<Hit>, limit: int)
    requires Consistent(c) && IsRanking(c, r.query, score, ranked) && 1 <= limit <= MAX_RESULTS
    ensures var response := Respond(ShowAll(ranked), r, c.revision);
            response.Matches? && response.hasMore ==>
              && response.nextOffset.Some? && response.nextOffset.value > r.offset
              && ArgumentsOk(r.(offset := response.nextOffset.value, limit := limit))
  {
    HitsFitNames(c, r.query, score, ranked, c.tools.Keys);
    CountKeys(c.tools);
  }

  ghost predicate Later(a: Catalog, b: Catalog, checks: Checks) {
    exists actions :: Run(a, actions, checks) == b
  }

  function Joined(responses: seq<Response>): (r: seq<Shown>)
    requires forall i :: 0 <= i < |responses| ==> responses[i].Matches?
  {
    if responses == [] then [] else Joined(responses[..|responses| - 1]) + responses[|responses| - 1].hits
  }

  /** A client that starts at offset 0 and then asks for each next offset at the first revision,
  while the catalog may change between its requests, and is answered every time. */
  ghost predicate FollowsPages(states: seq<Catalog>, requests: seq<Request>, responses: seq<Response>, score: Scorer, checks: Checks) {
    && |states| == |requests| == |responses| > 0
    && requests[0].offset == 0
    && (forall i :: 0 <= i < |states| ==> Later(states[0], states[i], checks))
    && (forall i :: 0 <= i < |states| ==> responses[i].Matches? && Answers(states[i], requests[i], score, responses[i]))
    && (forall i :: 0 <= i < |states| ==> requests[i].query == requests[0].query)
    && (forall i :: 0 < i < |states| ==>
          requests[i].revision == Some(states[0].revision) && responses[i - 1].nextOffset == Some(requests[i].offset))
  }

  /** An answered follow-up request saw the catalog of the first one. */
  lemma SameCatalog(a: Catalog, b: Catalog, r: Request, score: Scorer, response: Response, checks: Checks)
    requires Later(a, b, checks) && Answers(b, r, score, response) && response.Matches? && r.revision == Some(a.revision)
    ensures a == b
  {
    var actions :| Run(a, actions, checks) == b;
    RevisionIdentifiesCatalog(a, actions, checks);
  }

  lemma AnswerIsRanked(c: Catalog, r: Request, score: Scorer, response: Response, ranked: seq<Hit>)
    requires Answers(c, r, score, response) && IsRanking(c, r.query, score, ranked)
    ensures response == Respond(ShowAll(ranked), r, c.revision)
  {
    var own :| IsRanking(c, r.query, score, own) && response == Respond(ShowAll(own), r, c.revision);
    RankingIsUnique(c, r.query, score, own, ranked);
  }

  /** Responses that are successive pages of one list. */
  predicate Chain(shown: seq<Shown>, requests: seq<Request>, responses: seq<Response>, revision: nat) {
    && |requests| == |responses| > 0
    && requests[0].offset == 0
    && (forall i :: 0 <= i < |responses| ==> responses[i] == Respond(shown, requests[i], revision) && responses[i].Matches?)
    && (forall i :: 0 < i < |responses| ==> responses[i - 1].nextOffset == Some(requests[i].offset))
  }

  lemma {:induction false} ChainCovers(shown: seq<Shown>, requests: seq<Request>, responses: seq<Response>, revision: nat)
    requires Chain(shown, requests, responses, revision)
    ensures var last := responses[|responses| - 1];
            && 0 <= last.offset && last.offset + |last.hits| <= |shown|
            && Joined(responses) == shown[..last.offset + |last.hits|]
            && last.hasMore == (last.offset + |last.hits| < |shown|)
    decreases |responses|
  {
    hide Respond, Page, Joined;
    var n := |responses| - 1;
    JoinedEnds(responses);
    assert responses[n] == Respond(shown, requests[n], revision);
    if n == 0 {
      OnePage(shown, requests[0], revision);
      assert shown[..0] == [];
    } else {
      ShorterChain(shown, requests, responses, revision);
      ChainCovers(shown, requests[..n], responses[..n], revision);
      assert responses[n - 1] == Respond(shown, requests[n - 1], revision);
      PreviousPage(shown, requests[n - 1], revision);
      OnePage(shown, requests[n], revision);
    }
    PageExtends(shown, requests[n].offset, requests[n].limit);
  }

  lemma JoinedEnds(responses: seq<Response>)
    requires responses != [] && forall i :: 0 <= i < |responses| ==> responses[i].Matches?
    ensures var n := |responses| - 1;
            Joined(responses) == if n == 0 then responses[0].hits else Joined(responses[..n]) + responses[n].hits
  {
    if |responses| == 1 { assert responses[..0] == []; }
  }

  lemma ShorterChain(shown: seq<Shown>, requests: seq<Request>, responses: seq<Response>, revision: nat)
    requires Chain(shown, requests, responses, revision) && |responses| > 1
    ensures Chain(shown, requests[..|responses| - 1], responses[..|responses| - 1], revision)
  {
    hide Respond;
  }

  lemma OnePage(shown: seq<Shown>, r: Request, revision: nat)
    requires Respond(shown, r, revision).Matches? && r.offset <= |shown|
    ensures var a := Respond(shown, r, revision);
            && a.offset == r.offset >= 0 && r.limit >= 0 && a.hits == Page(shown, r.offset, r.limit)
            && a.offset + |a.hits| <= |shown| && a.hasMore == (a.offset + |a.hits| < |shown|)
  {
  }

  lemma PreviousPage(shown: seq<Shown>, r: Request, revision: nat)
    requires Respond(shown, r, revision).Matches? && Respond(shown, r, revision).nextOffset.Some?
    ensures var a := Respond(shown, r, revision); a.nextOffset.value == a.offset + |a.hits| < |shown|
  {
  }

  lemma FollowedIsChain(states: seq<Catalog>, requests: seq<Request>, responses: seq<Response>,
      score: Scorer, checks: Checks, ranked: seq<Hit>)
    requires FollowsPages(states, requests, responses, score, checks)
    requires IsRanking(states[0], requests[0].query, score, ranked)
    ensures Chain(ShowAll(ranked), requests, responses, states[0].revision)
  {
    hide Respond, IsRanking, Later, Answers;
    forall i | 0 <= i < |responses| ensures responses[i] == Respond(ShowAll(ranked), requests[i], states[0].revision) {
      if i > 0 { SameCatalog(states[0], states[i], requests[i], score, responses[i], checks); }
      AnswerIsRanked(states[0], requests[i], score, responses[i], ranked);
    }
  }

  /** The pages of a followed search are the ranking of the first catalog, in order, each hit once. */
  lemma PagesEnumerateRanking(states: seq<Catalog>, requests: seq<Request>, responses: seq<Response>,
      score: Scorer, checks: Checks, ranked: seq<Hit>)
    requires FollowsPages(states, requests, responses, score, checks)
    requires IsRanking(states[0], requests[0].query, score, ranked)
    ensures var last := responses[|responses| - 1];
            && last.offset >= 0 && last.offset + |last.hits| <= |ranked|
            && Joined(responses) == ShowAll(ranked)[..last.offset + |last.hits|]
            && (last.hasMore <==> Joined(responses) != ShowAll(ranked))
  {
    hide IsRanking, Later, Answers, Respond;
    FollowedIsChain(states, requests, responses, score, checks, ranked);
    ChainCovers(ShowAll(ranked), requests, responses, states[0].revision);
    var k := responses[|responses| - 1].offset + |responses[|responses| - 1].hits|;
    if k == |ranked| { assert ShowAll(ranked)[..k] == ShowAll(ranked); }
  }

  lemma PageExtends(shown: seq<Shown>, offset: nat, limit: nat)
    requires offset <= |shown|
    ensures shown[..offset] + Page(shown, offset, limit) == shown[..offset + |Page(shown, offset, limit)|]
  {
  }

  // ------------------------------------------------------ following to the last page

  predicate Sizes(sizes: nat -> int, turn: nat) {
    1 <= sizes(turn) <= MAX_RESULTS
  }

  /** All responses to a client who starts at `offset`, asks for a page of any allowed size in each
  turn, and goes on while there is more. */
  function Follow(shown: seq<Shown>, query: string, sizes: nat -> int, revision: nat, offset: nat, turn: nat): (rs: seq<Response>)
    requires offset <= |shown| <= MAX_OFFSET && 2 <= |query| <= MAX_QUERY_CHARS && forall t :: Sizes(sizes, t)
    decreases |shown| - offset
  {
    assert Sizes(sizes, turn);
    var a := Respond(shown, Request(query, sizes(turn), offset, Some(revision)), revision);
    if a.hasMore then [a] + Follow(shown, query, sizes, revision, a.nextOffset.value, turn + 1) else [a]
  }

  lemma HitsAssociate(a: seq<Shown>, b: seq<Shown>, c: seq<Shown>)
    ensures (a + b) + c == a + (b + c)
  {
  }

  lemma {:induction false} JoinedStarts(first: Response, rest: seq<Response>)
    requires first.Matches? && forall i :: 0 <= i < |rest| ==> rest[i].Matches?
    ensures Joined([first] + rest) == first.hits + Joined(rest)
  {
    if rest == [] {
      assert [first] + [] == [first] && [first][..0] == [];
    } else {
      var init, last := rest[..|rest| - 1], rest[|rest| - 1];
      JoinedStarts(first, init);
      assert ([first] + rest)[..|rest|] == [first] + init;
      assert Joined([first] + rest) == Joined([first] + init) + last.hits;
      HitsAssociate(first.hits, Joined(init), last.hits);
    }
  }

  /** Answered every time, and told to go on until the last answer. */
  predicate Complete(rs: seq<Response>) {
    rs != [] && forall i :: 0 <= i < |rs| ==> rs[i].Matches? && rs[i].hasMore == (i < |rs| - 1)
  }

  lemma OneAnswer(shown: seq<Shown>, query: string, size: int, offset: nat, revision: nat)
    requires offset <= |shown| <= MAX_OFFSET && 2 <= |query| <= MAX_QUERY_CHARS && 1 <= size <= MAX_RESULTS
    ensures var a := Respond(shown, Request(query, size, offset, Some(revision)), revision);
            a.Matches? && if a.hasMore then a.nextOffset.Some? && offset < a.nextOffset.value < |shown| && a.hits == shown[offset..a.nextOffset.value]
                          else a.hits == shown[offset..]
  {
  }

  lemma OneMoreAnswer(a: Response, rest: seq<Response>, shown: seq<Shown>, offset: nat, next: nat)
    requires a.Matches? && a.hasMore && offset <= next <= |shown| && a.hits == shown[offset..next]
    requires Complete(rest) && Joined(rest) == shown[next..]
    ensures Complete([a] + rest) && Joined([a] + rest) == shown[offset..]
  {
    hide Joined;
    JoinedStarts(a, rest);
    assert shown[offset..] == shown[offset..next] + shown[next..];
  }

  lemma LastAnswer(a: Response)
    requires a.Matches? && !a.hasMore
    ensures Complete([a]) && Joined([a]) == a.hits
  {
    assert [a][..0] == [];
  }

  /** Whatever page sizes a client chooses, following `next_offset` ends, and it has then collected the
  rest of the ranking exactly once and in order. */
  lemma {:induction false} FollowingFinishes(shown: seq<Shown>, query: string, sizes: nat -> int, revision: nat, offset: nat, turn: nat)
    requires offset <= |shown| <= MAX_OFFSET && 2 <= |query| <= MAX_QUERY_CHARS && forall t :: Sizes(sizes, t)
    ensures var rs := Follow(shown, query, sizes, revision, offset, turn);
            Complete(rs) && Joined(rs) == shown[offset..] && |rs| <= 1 + |shown| - offset
    decreases |shown| - offset
  {
    hide Respond, Joined, Complete;
    assert Sizes(sizes, turn);
    OneAnswer(shown, query, sizes(turn), offset, revision);
    var a := Respond(shown, Request(query, sizes(turn), offset, Some(revision)), revision);
    if a.hasMore {
      FollowingFinishes(shown, query, sizes, revision, a.nextOffset.value, turn + 1);
      OneMoreAnswer(a, Follow(shown, query, sizes, revision, a.nextOffset.value, turn + 1), shown, offset, a.nextOffset.value);
    } else {
      LastAnswer(a);
    }
  }

  /** The whole search over one catalog: it ends with the whole ranking, and every request was legal. */
  lemma SearchEnumeratesRanking(c: Catalog, query: string, score: Scorer, ranked: seq<Hit>, sizes: nat -> int)
    requires Consistent(c) && IsRanking(c, query, score, ranked)
    requires 2 <= |query| <= MAX_QUERY_CHARS && forall t :: Sizes(sizes, t)
    ensures |ranked| <= MAX_OFFSET
    ensures var rs := Follow(ShowAll(ranked), query, sizes, c.revision, 0, 0);
            Complete(rs) && Joined(rs) == ShowAll(ranked)
  {
    HitsFitNames(c, query, score, ranked, c.tools.Keys);
    CountKeys(c.tools);
    hide IsRanking, Follow, Consistent;
    FollowingFinishes(ShowAll(ranked), query, sizes, c.revision, 0, 0);
    assert ShowAll(ranked)[0..] == ShowAll(ranked);
  }

  // ------------------------------------------------------------- what is shown and ranked

  /** A hit is shown with its own name, effect, extension and hash, and with its description up to 512 characters. */
  lemma ShownIs(h: Hit)
    ensures var r, d := Show(h), h.spec.description;
            && r.name == h.spec.name && r.effectClass == h.spec.effectClass
            && r.extensionId == h.spec.extensionId && r.descriptorHash == h.spec.descriptorHash
            && r.description <= d && |r.description| == if |d| < 512 then |d| else 512
  {
  }

  /** A ranking lists the tools that score, the three host tools excepted, each with its score, higher scores first and
  names ascending among equals. */
  lemma RankingIs(c: Catalog, query: string, score: Scorer, s: seq<Hit>)
    ensures IsRanking(c, query, score, s) <==>
      && (forall i, j :: 0 <= i < j < |s| ==>
            s[i].score > s[j].score || (s[i].score == s[j].score && TextLess(s[i].spec.name, s[j].spec.name)))
      && (forall h :: h in s <==> exists n :: n in c.tools && Scores(c.tools[n].spec, query, score) && h == Hit(score(query, c.tools[n].spec), c.tools[n].spec))
  {
    forall n | n in c.tools ensures IsHit(c, query, score, n) <==> Scores(c.tools[n].spec, query, score) { }
    hide Scores, IsHit;
  }

  predicate Scores(spec: Spec, query: string, score: Scorer) {
    spec.name !in {"aegis.skills.read", "aegis.tools.schema", "aegis.tools.search"} && score(query, spec) > 0
  }
}
