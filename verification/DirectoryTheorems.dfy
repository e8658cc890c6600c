/** What a bounded discovery yields: exactly the files within reach, or a prefix of them and a
limit that was really exceeded. */
module DirectoryTheorems {
  import opened Sorting
  import opened DirectoryWalk

  // --------------------------------------------------------------- limits and prefixes

  /** How many files a limit lets through: a negative limit means none. */
  function AtLeastZero(limit: int): (r: nat) {
    if limit > 0 then limit else 0
  }

  lemma {:induction false} DriveStopsAtLimits(l: Limits, stops: seq<Stop>, scanned: nat, matched: nat)
    requires scanned <= l.entries && matched <= AtLeastZero(l.files)
    ensures var r := Drive(l, stops, scanned, matched);
            && r.yielded <= Found(stops)
            && (r.outcome.Completed? ==>
                 r.yielded == Found(stops) && scanned + Scanned(stops) <= l.entries && matched + |Found(stops)| <= AtLeastZero(l.files))
            && (r.outcome.EntryLimit? ==> scanned + Scanned(stops) > l.entries)
            && (r.outcome.FileLimit? ==>
                 matched + |r.yielded| == AtLeastZero(l.files) && matched + |Found(stops)| > AtLeastZero(l.files))
            && (r.outcome.Completed? || r.outcome.EntryLimit? || r.outcome.FileLimit?)
  {
    if stops != [] && scanned + stops[0].scans <= l.entries && |stops[0].matches| <= Room(l, matched) {
      DriveStopsAtLimits(l, stops[1..], scanned + stops[0].scans, matched + |stops[0].matches|);
    }
  }

  /** With valid parameters a discovery completes exactly when the whole tour respects both limits;
  then it yields every file. Otherwise it fails after a prefix, and the reported limit is exceeded. */
  lemma DiscoveryIsExact(q: Search, roots: seq<Root>, maxFiles: int, maxDepth: int, maxEntries: int)
    requires 0 <= maxDepth <= MAX_DISCOVERY_DEPTH && 1 <= maxEntries <= MAX_DISCOVERY_ENTRIES
    ensures var r, stops := Discover(q, roots, maxFiles, maxDepth, maxEntries), WholeTour(q, roots, maxDepth);
            && r.yielded <= Found(stops)
            && (r.outcome.Completed? <==> Scanned(stops) <= maxEntries && |Found(stops)| <= AtLeastZero(maxFiles))
            && (r.outcome.Completed? ==> r.yielded == Found(stops))
            && (r.outcome.EntryLimit? ==> Scanned(stops) > maxEntries)
            && (r.outcome.FileLimit? ==> |r.yielded| == AtLeastZero(maxFiles) < |Found(stops)|)
            && !r.outcome.DepthInvalid? && !r.outcome.EntriesInvalid?
  {
    hide WholeTour;
    DriveStopsAtLimits(Limits(maxFiles, maxEntries), WholeTour(q, roots, maxDepth), 0, 0);
  }

  // ------------------------------------------------------- which files are within reach

  /** `e` is listed in the folder and has the given name. */
  predicate Lists(folder: Kind, e: Entry, name: string) {
    folder.Folder? && !folder.faulty && e in folder.children && e.name == name
  }

  /** Following `rel` from the folder leads to a matching file through at most `left` subfolders,
  none of them linked, skipped or unreadable. */
  ghost predicate Reaches(q: Search, folder: Kind, left: nat, rel: Path)
    decreases |rel|
  {
    if rel == [] then false
    else if |rel| == 1 then rel[0] == q.filename && exists e :: Lists(folder, e, rel[0]) && e.kind.File?
    else
      && left > 0
      && rel[0] !in {".git", ".hub", ".venv", "node_modules", "target", "dist", "build", "__pycache__"}
      && exists e :: Lists(folder, e, rel[0]) && e.kind.Folder? && Reaches(q, e.kind, left - 1, rel[1..])
  }

  lemma {:induction false} MatchingMembers(children: seq<Entry>, filename: string)
    ensures forall e :: e in Matching(children, filename) <==> e in children && e.kind.File? && e.name == filename
  {
    if children != [] { MatchingMembers(children[..|children| - 1], filename); }
  }

  lemma {:induction false} SubfolderMembers(children: seq<Entry>)
    ensures forall e :: e in Subfolders(children) <==> e in children && e.kind.Folder? && e.name !in SKIP_DIRECTORIES
  {
    if children != [] { SubfolderMembers(children[..|children| - 1]); }
  }

  predicate Enters(folder: Kind, left: nat, e: Entry) {
    left > 0 && Lists(folder, e, e.name) && e.kind.Folder? && e.name !in SKIP_DIRECTORIES
  }

  lemma DeeperMembers(q: Search, folder: Kind, left: nat)
    requires folder.Folder?
    ensures forall e :: e in Deeper(q, folder, left) <==> Enters(folder, left, e)
  {
    SubfolderMembers(folder.children);
    ByNameKeepsMembers(Subfolders(folder.children), q.fold);
  }

  lemma {:induction false} FoundInParts(a: seq<Stop>, b: seq<Stop>)
    ensures Found(a + b) == Found(a) + Found(b)
  {
    if a == [] {
      assert [] + b == b;
    } else {
      FoundInParts(a[1..], b);
      assert (a + b)[1..] == a[1..] + b;
      assert Found(a + b) == a[0].matches + Found(a[1..] + b);
    }
  }

  /** The files a directory yields itself. */
  lemma HereMembers(q: Search, folder: Kind)
    requires folder.Folder?
    ensures forall e :: e in ByName(Matching(folder.children, q.filename), q.fold)
                   <==> e in folder.children && e.kind.File? && e.name == q.filename
  {
    MatchingMembers(folder.children, q.filename);
    ByNameKeepsMembers(Matching(folder.children, q.filename), q.fold);
  }

  lemma YieldedMeansListed(q: Search, root: Path, path: Path, folder: Kind, rel: Path)
    requires folder.Folder? && Match(root, path + rel) in Here(q, root, path, folder).matches
    ensures |rel| == 1 && Reaches(q, folder, 0, rel)
  {
    HereMembers(q, folder);
    hide ByName, Matching;
    var es := ByName(Matching(folder.children, q.filename), q.fold);
    var i :| 0 <= i < |es| && Matches(root, path, es)[i] == Match(root, path + rel);
    assert es[i] in es;
    OneNameBelow(path, es[i].name, rel);
    assert Lists(folder, es[i], rel[0]);
  }

  lemma OneNameBelow(path: Path, name: string, rel: Path)
    requires path + [name] == path + rel
    ensures rel == [name]
  {
    assert |path + [name]| == |path + rel|;
    assert (path + [name])[|path|] == (path + rel)[|path|];
  }

  lemma ListedMeansYielded(q: Search, root: Path, path: Path, folder: Kind, rel: Path)
    requires folder.Folder? && |rel| == 1 && Reaches(q, folder, 0, rel)
    ensures Match(root, path + rel) in Here(q, root, path, folder).matches
  {
    HereMembers(q, folder);
    hide ByName, Matching;
    var es := ByName(Matching(folder.children, q.filename), q.fold);
    var e :| Lists(folder, e, rel[0]) && e.kind.File?;
    assert e in es;
    var i :| 0 <= i < |es| && es[i] == e;
    assert rel == [e.name];
    assert Matches(root, path, es)[i] == Match(root, path + rel);
  }

  lemma HereYields(q: Search, root: Path, path: Path, folder: Kind, rel: Path)
    requires folder.Folder?
    ensures Match(root, path + rel) in Here(q, root, path, folder).matches <==> |rel| == 1 && Reaches(q, folder, 0, rel)
  {
    hide Here, Reaches;
    if Match(root, path + rel) in Here(q, root, path, folder).matches { YieldedMeansListed(q, root, path, folder, rel); }
    if |rel| == 1 && Reaches(q, folder, 0, rel) { ListedMeansYielded(q, root, path, folder, rel); }
  }

  /** Everything a tour finds lies below its path. */
  predicate Under(m: Match, root: Path, path: Path) {
    m.root == root && path <= m.path
  }

  lemma {:induction false} TourStaysUnder(q: Search, root: Path, path: Path, folder: Kind, left: nat)
    requires folder.Folder?
    ensures forall m :: m in Found(Tour(q, root, path, folder, left)) ==> Under(m, root, path)
    decreases left, 1, 0
  {
    hide TourAll, Deeper, Matching, ByName;
    TourAllStaysUnder(q, root, path, Deeper(q, folder, left), left);
    FoundInParts([Here(q, root, path, folder)], TourAll(q, root, path, Deeper(q, folder, left), left));
    assert Found([Here(q, root, path, folder)]) == Here(q, root, path, folder).matches + Found([]);
  }

  lemma {:induction false} TourAllStaysUnder(q: Search, root: Path, path: Path, es: seq<Entry>, left: nat)
    requires forall e :: e in es ==> e.kind.Folder?
    requires left == 0 ==> es == []
    ensures forall m :: m in Found(TourAll(q, root, path, es, left)) ==> Under(m, root, path)
    decreases left, 0, |es|
  {
    hide Tour;
    if es != [] {
      TourStaysUnder(q, root, path + [es[0].name], es[0].kind, left - 1);
      TourAllStaysUnder(q, root, path, es[1..], left);
      FoundInParts(Tour(q, root, path + [es[0].name], es[0].kind, left - 1), TourAll(q, root, path, es[1..], left));
    }
  }

  /** One of the folders leads to `rel`. */
  predicate Leads(q: Search, e: Entry, left: nat, rel: Path) {
    |rel| >= 2 && left > 0 && e.kind.Folder? && e.name == rel[0]
  }

  ghost predicate SomeLeads(q: Search, es: seq<Entry>, left: nat, rel: Path) {
    exists e :: e in es && Leads(q, e, left, rel) && Reaches(q, e.kind, left - 1, rel[1..])
  }

  /** A tour finds exactly the files within reach. */
  lemma {:induction false} TourFindsReachable(q: Search, root: Path, path: Path, folder: Kind, left: nat, rel: Path)
    requires folder.Folder?
    ensures Match(root, path + rel) in Found(Tour(q, root, path, folder, left)) <==> Reaches(q, folder, left, rel)
    decreases left, 1, 0
  {
    hide TourAll, Here;
    var es := Deeper(q, folder, left);
    HereYields(q, root, path, folder, rel);
    TourAllFindsReachable(q, root, path, es, left, rel);
    DeeperMembers(q, folder, left);
    FoundInParts([Here(q, root, path, folder)], TourAll(q, root, path, es, left));
    assert Found([Here(q, root, path, folder)]) == Here(q, root, path, folder).matches + Found([]);
    hide Tour, Found, Deeper;
    assert |rel| >= 2 ==> (SomeLeads(q, es, left, rel) <==> Reaches(q, folder, left, rel));
  }

  lemma {:induction false} TourAllFindsReachable(q: Search, root: Path, path: Path, es: seq<Entry>, left: nat, rel: Path)
    requires forall e :: e in es ==> e.kind.Folder?
    requires left == 0 ==> es == []
    ensures Match(root, path + rel) in Found(TourAll(q, root, path, es, left)) <==> SomeLeads(q, es, left, rel)
    decreases left, 0, |es|
  {
    hide Tour, Reaches;
    if es != [] {
      var n := es[0].name;
      FoundInParts(Tour(q, root, path + [n], es[0].kind, left - 1), TourAll(q, root, path, es[1..], left));
      TourAllFindsReachable(q, root, path, es[1..], left, rel);
      FirstFolderFindsReachable(q, root, path, es[0], left, rel);
      assert SomeLeads(q, es, left, rel) <==> SomeLeads(q, [es[0]], left, rel) || SomeLeads(q, es[1..], left, rel);
    }
  }

  lemma FirstFolderFindsReachable(q: Search, root: Path, path: Path, e: Entry, left: nat, rel: Path)
    requires e.kind.Folder? && left > 0
    ensures Match(root, path + rel) in Found(Tour(q, root, path + [e.name], e.kind, left - 1)) <==> SomeLeads(q, [e], left, rel)
    decreases left, 0, 0
  {
    hide Tour, Found;
    TourStaysUnder(q, root, path + [e.name], e.kind, left - 1);
    if Match(root, path + rel) in Found(Tour(q, root, path + [e.name], e.kind, left - 1)) {
      assert (path + [e.name])[|path|] == (path + rel)[|path|];
    }
    if rel != [] && rel[0] == e.name {
      assert path + rel == (path + [e.name]) + rel[1..];
      TourFindsReachable(q, root, path + [e.name], e.kind, left - 1, rel[1..]);
    }
  }

  // ------------------------------------------------------------------- each file once

  predicate DistinctNames(s: seq<Entry>) {
    forall i, j :: 0 <= i < j < |s| ==> s[i].name != s[j].name
  }

  /** No folder within reach lists one name twice. */
  ghost predicate WellNamed(folder: Kind, left: nat)
    requires folder.Folder?
    decreases left
  {
    && DistinctNames(folder.children)
    && (left > 0 ==> forall e :: e in folder.children && e.kind.Folder? ==> WellNamed(e.kind, left - 1))
  }

  predicate Once(s: seq<Match>) {
    forall i, j :: 0 <= i < j < |s| ==> s[i] != s[j]
  }

  lemma {:induction false} SubfoldersStayDistinct(children: seq<Entry>)
    requires DistinctNames(children)
    ensures DistinctNames(Subfolders(children))
  {
    if children != [] {
      var init, last := children[..|children| - 1], children[|children| - 1];
      SubfoldersStayDistinct(init);
      SubfolderMembers(init);
      forall e | e in Subfolders(init) ensures e.name != last.name {
        var i :| 0 <= i < |init| && init[i] == e;
        assert children[i] == e;
      }
    }
  }

  lemma {:induction false} FewMatching(children: seq<Entry>, filename: string)
    requires DistinctNames(children)
    ensures |Matching(children, filename)| <= 1
  {
    if children != [] {
      var init, last := children[..|children| - 1], children[|children| - 1];
      FewMatching(init, filename);
      MatchingMembers(init, filename);
      if Matching(init, filename) != [] {
        var e := Matching(init, filename)[0];
        assert e in Matching(init, filename);
        var i :| 0 <= i < |init| && init[i] == e;
        assert children[i] == e;
      }
    }
  }

  function NameOf(e: Entry): (name: string) {
    e.name
  }

  lemma OnceInParts(a: seq<Match>, b: seq<Match>)
    requires Once(a) && Once(b) && forall m :: m in a ==> m !in b
    ensures Once(a + b)
  {
    var s := a + b;
    forall i, j | 0 <= i < j < |s| ensures s[i] != s[j] {
      assert i < |a| ==> s[i] in a;
      assert j >= |a| ==> s[j] in b;
    }
  }

  lemma HereIsOnce(q: Search, root: Path, path: Path, folder: Kind)
    requires folder.Folder? && DistinctNames(folder.children)
    ensures |Here(q, root, path, folder).matches| <= 1
    ensures forall m :: m in Here(q, root, path, folder).matches ==> |m.path| == |path| + 1
  {
    FewMatching(folder.children, q.filename);
  }

  lemma DeeperIsDistinct(q: Search, folder: Kind, left: nat)
    requires folder.Folder? && WellNamed(folder, left)
    ensures DistinctNames(Deeper(q, folder, left))
    ensures forall e :: e in Deeper(q, folder, left) ==> WellNamed(e.kind, left - 1)
  {
    SubfoldersStayDistinct(folder.children);
    PermutationKeepsKeys(Subfolders(folder.children), ByName(Subfolders(folder.children), q.fold), NameOf);
    DeeperMembers(q, folder, left);
  }

  /** If no folder lists a name twice, a tour finds each file once. */
  lemma {:induction false} TourFindsOnce(q: Search, root: Path, path: Path, folder: Kind, left: nat)
    requires folder.Folder? && WellNamed(folder, left)
    ensures Once(Found(Tour(q, root, path, folder, left)))
    decreases left, 1, 0
  {
    hide TourAll, Here;
    var es := Deeper(q, folder, left);
    HereIsOnce(q, root, path, folder);
    DeeperIsDistinct(q, folder, left);
    TourAllFindsOnce(q, root, path, es, left);
    FoundInParts([Here(q, root, path, folder)], TourAll(q, root, path, es, left));
    assert Found([Here(q, root, path, folder)]) == Here(q, root, path, folder).matches + Found([]);
    OnceInParts(Here(q, root, path, folder).matches, Found(TourAll(q, root, path, es, left)));
  }

  lemma {:induction false} TourAllFindsOnce(q: Search, root: Path, path: Path, es: seq<Entry>, left: nat)
    requires DistinctNames(es) && forall e :: e in es ==> e.kind.Folder?
    requires left == 0 ==> es == []
    requires forall e :: e in es ==> WellNamed(e.kind, left - 1)
    ensures Once(Found(TourAll(q, root, path, es, left)))
    ensures forall m :: m in Found(TourAll(q, root, path, es, left)) ==> |m.path| >= |path| + 2 && exists e :: e in es && m.path[|path|] == e.name
    decreases left, 0, |es|
  {
    hide Tour, WellNamed;
    if es != [] {
      var first, n := Tour(q, root, path + [es[0].name], es[0].kind, left - 1), es[0].name;
      assert es[0] in es;
      TourFindsOnce(q, root, path + [n], es[0].kind, left - 1);
      TourAllFindsOnce(q, root, path, es[1..], left);
      FoundInParts(first, TourAll(q, root, path, es[1..], left));
      TourGoesDeeper(q, root, path, n, es[0].kind, left - 1);
      assert forall e :: e in es[1..] ==> e.name != n;
      hide Found, TourAll;
      OnceInParts(Found(first), Found(TourAll(q, root, path, es[1..], left)));
    }
  }

  lemma PathBeyond(path: Path, n: string, p: Path)
    requires path + [n] <= p
    ensures |p| > |path| && p[|path|] == n && (path + [n]) + p[|path| + 1..] == p
  {
    assert (path + [n])[|path|] == n;
  }

  lemma TourGoesDeeper(q: Search, root: Path, path: Path, n: string, folder: Kind, left: nat)
    requires folder.Folder?
    ensures forall m :: m in Found(Tour(q, root, path + [n], folder, left)) ==> |m.path| >= |path| + 2 && m.path[|path|] == n
  {
    hide Tour, Found, Reaches;
    var found := Found(Tour(q, root, path + [n], folder, left));
    TourStaysUnder(q, root, path + [n], folder, left);
    forall m | m in found ensures |m.path| >= |path| + 2 && m.path[|path|] == n {
      PathBeyond(path, n, m.path);
      TourFindsReachable(q, root, path + [n], folder, left, m.path[|path| + 1..]);
      NothingReachedByNoStep(q, folder, left, m.path[|path| + 1..]);
    }
  }

  lemma NothingReachedByNoStep(q: Search, folder: Kind, left: nat, rel: Path)
    ensures Reaches(q, folder, left, rel) ==> rel != []
  {
  }

  // -------------------------------------------------------------- over all roots

  /** The directory that the matches of a root are reported under. */
  function Base(r: Root): (p: Path) {
    match r
    case Ignored => []
    case FileRoot(parent, _) => parent
    case FolderRoot(path, _) => path
  }

  ghost predicate WellNamedRoots(roots: seq<Root>, maxDepth: nat) {
    forall r :: r in roots && r.FolderRoot? && r.folder.Folder? ==> WellNamed(r.folder, maxDepth)
  }

  predicate DistinctBases(roots: seq<Root>) {
    forall i, j :: 0 <= i < j < |roots| && !roots[i].Ignored? && !roots[j].Ignored? ==> Base(roots[i]) != Base(roots[j])
  }

  lemma RootFindsOnce(q: Search, r: Root, maxDepth: nat)
    requires WellNamedRoots([r], maxDepth)
    ensures Once(Found(RootTour(q, r, maxDepth)))
    ensures forall m :: m in Found(RootTour(q, r, maxDepth)) ==> !r.Ignored? && m.root == Base(r)
  {
    hide Tour, WellNamed;
    match r
    case Ignored =>
    case FileRoot(parent, name) =>
      assert Found([Stop(1, [Match(parent, parent + [name])])]) == [Match(parent, parent + [name])] + Found([]);
    case FolderRoot(path, folder) =>
      if folder.Folder? {
        assert r in [r];
        TourFindsOnce(q, path, path, folder, maxDepth);
        TourStaysUnder(q, path, path, folder, maxDepth);
      }
  }

  /** No root is entered twice, so nothing is found twice: over roots that name different directories,
  nested ones included, each file is reported once under each root it is found from. */
  lemma {:induction false} DiscoveryFindsOnce(q: Search, roots: seq<Root>, maxDepth: nat)
    requires WellNamedRoots(roots, maxDepth) && DistinctBases(roots)
    ensures Once(Found(WholeTour(q, roots, maxDepth)))
    ensures forall m :: m in Found(WholeTour(q, roots, maxDepth)) ==> exists r :: r in roots && !r.Ignored? && m.root == Base(r)
    decreases |roots|
  {
    hide RootTour, WellNamed, Base;
    if roots != [] {
      var first, rest := RootTour(q, roots[0], maxDepth), WholeTour(q, roots[1..], maxDepth);
      RootFindsOnce(q, roots[0], maxDepth);
      DiscoveryFindsOnce(q, roots[1..], maxDepth);
      FoundInParts(first, rest);
      hide WholeTour, Found, Once;
      assert forall r :: r in roots[1..] ==> r in roots;
      OnceInParts(Found(first), Found(rest));
    }
  }

  /** A root given twice reports everything twice. */
  lemma RepeatedRootRepeats(q: Search, r: Root, maxDepth: nat)
    ensures Found(WholeTour(q, [r, r], maxDepth)) == Found(RootTour(q, r, maxDepth)) + Found(RootTour(q, r, maxDepth))
  {
    var t := RootTour(q, r, maxDepth);
    hide RootTour;
    assert [r, r][1..] == [r] && [r][1..] == [];
    assert WholeTour(q, [r], maxDepth) == t + [] == t;
    assert WholeTour(q, [r, r], maxDepth) == t + t;
    FoundInParts(t, t);
  }

  // ------------------------------------------------------------ a negative file limit

  function SameName(name: string): (folded: string) {
    name
  }

  /** A negative file limit is treated like 0; callers refuse it, so this is about the walk alone. */
  lemma NegativeFileLimit()
    ensures Discover(Search("SKILL.md", SameName), [FileRoot(["skills"], "SKILL.md")], -1, 0, 10) == Ride([], FileLimit)
    ensures Discover(Search("SKILL.md", SameName), [Ignored], -1, 0, 10) == Ride([], Completed)
  {
    var q, root := Search("SKILL.md", SameName), FileRoot(["skills"], "SKILL.md");
    assert [root][1..] == [] && [Ignored][1..] == [];
    assert WholeTour(q, [], 0) == [];
    assert WholeTour(q, [root], 0) == RootTour(q, root, 0) + [];
    assert WholeTour(q, [Ignored], 0) == [] + [];
    OneStop(Limits(-1, 10), RootTour(q, root, 0)[0], [], 0, 0);
  }
}
