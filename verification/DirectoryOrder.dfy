/** The order in which a discovery finds files, read off the listed names alone. */
module DirectoryOrder {
  import opened Sorting
  import opened TextOrder
  import opened DirectoryWalk
  import opened DirectoryTheorems

  /** Name `a` is taken before name `b`: its folded form is less, or neither is less and `a` was listed first. */
  ghost predicate NameBefore(fold: string -> string, children: seq<Entry>, a: string, b: string) {
    || TextLess(fold(a), fold(b))
    || (!TextLess(fold(b), fold(a))
        && exists x, y :: 0 <= x < y < |children| && children[x].name == a && children[y].name == b)
  }

  /** File `p` is found before file `r`, both relative to the folder: a file of the folder comes before everything in
  its subfolders; the first names in which two deeper paths differ decide. */
  ghost predicate Earlier(fold: string -> string, folder: Kind, p: Path, r: Path)
    decreases |p|
  {
    folder.Folder? && |p| >= 1 && |r| >= 2 &&
    if |p| == 1 then true
    else if p[0] != r[0] then NameBefore(fold, folder.children, p[0], r[0])
    else exists e :: e in folder.children && e.name == p[0] && Earlier(fold, e.kind, p[1..], r[1..])
  }

  /** The path below `path`. */
  function Rest(m: Match, path: Path): (rel: Path) {
    if |path| <= |m.path| then m.path[|path|..] else []
  }

  ghost predicate InOrder(fold: string -> string, folder: Kind, path: Path, found: seq<Match>) {
    forall i, j :: 0 <= i < j < |found| ==> Earlier(fold, folder, Rest(found[i], path), Rest(found[j], path))
  }

  // ------------------------------------------------------------------ one directory

  ghost predicate EntriesInOrder(fold: string -> string, children: seq<Entry>, es: seq<Entry>) {
    forall i, j :: 0 <= i < j < |es| ==> NameBefore(fold, children, es[i].name, es[j].name)
  }

  lemma {:induction false} SubfoldersKeepPlaces(children: seq<Entry>, a: Entry, b: Entry)
    ensures ListedBefore(Subfolders(children), a, b) ==> ListedBefore(children, a, b)
  {
    if children != [] && ListedBefore(Subfolders(children), a, b) {
      var init, e := children[..|children| - 1], children[|children| - 1];
      SubfoldersKeepPlaces(init, a, b);
      var kept := Subfolders(init);
      var i, j :| 0 <= i < j < |Subfolders(children)| && Subfolders(children)[i] == a && Subfolders(children)[j] == b;
      assert children == init + [e];
      ListedLonger(init, e, a, b);
      if j < |kept| {
        assert kept[i] == a && kept[j] == b;
      } else {
        assert kept[i] == a && b == e;
        SubfolderMembers(init);
      }
    }
  }

  /** Subfolders are entered by folded name and, where those agree, in the order listed. */
  lemma DeeperInOrder(q: Search, folder: Kind, left: nat)
    requires folder.Folder?
    ensures EntriesInOrder(q.fold, folder.children, Deeper(q, folder, left))
  {
    var subs, es, before := Subfolders(folder.children), Deeper(q, folder, left), FoldedOrder(q.fold);
    FoldedOrderRanks(q.fold);
    SortIsStable(subs, before);
    forall i, j | 0 <= i < j < |es| ensures NameBefore(q.fold, folder.children, es[i].name, es[j].name) {
      assert before(es[i], es[j]) || (!before(es[j], es[i]) && ListedBefore(subs, es[i], es[j]));
      SubfoldersKeepPlaces(folder.children, es[i], es[j]);
    }
  }

  // ----------------------------------------------------------------------- the tour

  /** Files found through one subfolder stay in order when their paths are read from above it. */
  lemma OneLevelUp(fold: string -> string, folder: Kind, path: Path, e: Entry, found: seq<Match>)
    requires folder.Folder? && e in folder.children && InOrder(fold, e.kind, path + [e.name], found)
    requires forall m :: m in found ==> path + [e.name] <= m.path
    ensures InOrder(fold, folder, path, found)
  {
    forall i, j | 0 <= i < j < |found| ensures Earlier(fold, folder, Rest(found[i], path), Rest(found[j], path)) {
      assert found[i] in found && found[j] in found;
      BelowName(path, e.name, found[i]);
      BelowName(path, e.name, found[j]);
      assert Earlier(fold, e.kind, Rest(found[i], path + [e.name]), Rest(found[j], path + [e.name]));
    }
  }

  lemma BelowName(path: Path, n: string, m: Match)
    requires path + [n] <= m.path
    ensures var rel := Rest(m, path); |rel| >= 1 && rel[0] == n && rel[1..] == Rest(m, path + [n])
  {
    assert (path + [n])[|path|] == n;
  }

  lemma JoinInOrder(fold: string -> string, folder: Kind, path: Path, a: seq<Match>, b: seq<Match>)
    requires InOrder(fold, folder, path, a) && InOrder(fold, folder, path, b)
    requires forall x, y :: x in a && y in b ==> Earlier(fold, folder, Rest(x, path), Rest(y, path))
    ensures InOrder(fold, folder, path, a + b)
  {
    var s := a + b;
    forall i, j | 0 <= i < j < |s| ensures Earlier(fold, folder, Rest(s[i], path), Rest(s[j], path)) {
      if i < |a| <= j { assert s[i] in a && s[j] in b; }
    }
  }

  /** A tour finds files in the stated order, ties included. */
  lemma {:induction false} TourIsOrdered(q: Search, root: Path, path: Path, folder: Kind, left: nat)
    requires folder.Folder? && WellNamed(folder, left)
    ensures InOrder(q.fold, folder, path, Found(Tour(q, root, path, folder, left)))
    decreases left, 1, 0
  {
    hide TourAll, Here, WellNamed, Earlier, NameBefore;
    var es, here := Deeper(q, folder, left), Here(q, root, path, folder).matches;
    var below := Found(TourAll(q, root, path, es, left));
    TourParts(q, root, path, folder, left);
    WellNamedMeans(folder, left);
    HereIsOnce(q, root, path, folder);
    DeeperIsDistinct(q, folder, left);
    DeeperMembers(q, folder, left);
    DeeperInOrder(q, folder, left);
    TourAllIsOrdered(q, root, path, folder, es, left);
    TourAllFindsOnce(q, root, path, es, left);
    hide Tour, Found, Deeper;
    FileComesFirst(q.fold, folder, path, here, below);
    JoinInOrder(q.fold, folder, path, here, below);
  }

  lemma WellNamedMeans(folder: Kind, left: nat)
    requires folder.Folder? && WellNamed(folder, left)
    ensures DistinctNames(folder.children)
  {
  }

  lemma TourParts(q: Search, root: Path, path: Path, folder: Kind, left: nat)
    requires folder.Folder?
    ensures Found(Tour(q, root, path, folder, left))
         == Here(q, root, path, folder).matches + Found(TourAll(q, root, path, Deeper(q, folder, left), left))
  {
    hide TourAll, Here, Deeper;
    FoundInParts([Here(q, root, path, folder)], TourAll(q, root, path, Deeper(q, folder, left), left));
    assert Found([Here(q, root, path, folder)]) == Here(q, root, path, folder).matches + Found([]);
  }

  lemma FileComesFirst(fold: string -> string, folder: Kind, path: Path, here: seq<Match>, below: seq<Match>)
    requires folder.Folder? && |here| <= 1 && (forall m :: m in here ==> |m.path| == |path| + 1)
    requires forall m :: m in below ==> |m.path| >= |path| + 2
    ensures InOrder(fold, folder, path, here)
    ensures forall x, y :: x in here && y in below ==> Earlier(fold, folder, Rest(x, path), Rest(y, path))
  {
  }

  lemma {:induction false} TourAllIsOrdered(q: Search, root: Path, path: Path, folder: Kind, es: seq<Entry>, left: nat)
    requires folder.Folder? && DistinctNames(es) && EntriesInOrder(q.fold, folder.children, es)
    requires left == 0 ==> es == []
    requires forall e :: e in es ==> e.kind.Folder? && e in folder.children && WellNamed(e.kind, left - 1)
    ensures InOrder(q.fold, folder, path, Found(TourAll(q, root, path, es, left)))
    decreases left, 0, |es|
  {
    hide Tour, WellNamed, Earlier, NameBefore;
    if es != [] {
      var e, rest := es[0], es[1..];
      var first := Tour(q, root, path + [e.name], e.kind, left - 1);
      assert e in es;
      TourIsOrdered(q, root, path + [e.name], e.kind, left - 1);
      TourStaysUnder(q, root, path + [e.name], e.kind, left - 1);
      OneLevelUp(q.fold, folder, path, e, Found(first));
      TourAllIsOrdered(q, root, path, folder, rest, left);
      TourAllFindsOnce(q, root, path, rest, left);
      FoundInParts(first, TourAll(q, root, path, rest, left));
      TourGoesDeeper(q, root, path, e.name, e.kind, left - 1);
      hide Found, TourAll;
      EarlierFolder(q.fold, folder, path, es, Found(first), Found(TourAll(q, root, path, rest, left)));
      JoinInOrder(q.fold, folder, path, Found(first), Found(TourAll(q, root, path, rest, left)));
    }
  }

  lemma EarlierFolder(fold: string -> string, folder: Kind, path: Path, es: seq<Entry>, a: seq<Match>, b: seq<Match>)
    requires folder.Folder? && es != [] && DistinctNames(es) && EntriesInOrder(fold, folder.children, es)
    requires forall m :: m in a ==> |m.path| >= |path| + 2 && m.path[|path|] == es[0].name
    requires forall m :: m in b ==> |m.path| >= |path| + 2 && exists e :: e in es[1..] && m.path[|path|] == e.name
    ensures forall x, y :: x in a && y in b ==> Earlier(fold, folder, Rest(x, path), Rest(y, path))
  {
    hide NameBefore;
    forall x, y | x in a && y in b ensures Earlier(fold, folder, Rest(x, path), Rest(y, path)) {
      var e :| e in es[1..] && y.path[|path|] == e.name;
      var k :| 0 <= k < |es| - 1 && es[1..][k] == e;
      assert es[k + 1] == e && NameBefore(fold, folder.children, es[0].name, es[k + 1].name) && es[0].name != es[k + 1].name;
    }
  }

  // ------------------------------------------------------- folders are not interleaved

  lemma OneWay(fold: string -> string, children: seq<Entry>, a: string, b: string)
    requires DistinctNames(children) && NameBefore(fold, children, a, b)
    ensures !NameBefore(fold, children, b, a)
  {
    TextTotal(fold(a), fold(b));
  }

  /** Between two files of one folder, at any depth, only files of that folder are found. */
  lemma {:induction false} FoldersAreNotInterleaved(fold: string -> string, folder: Kind, left: nat, x: Path, p: Path, r: Path, t: Path)
    requires folder.Folder? && WellNamed(folder, left) && |x| <= left && x <= p && x <= t && |x| < |p| && |x| < |t|
    requires Earlier(fold, folder, p, r) && Earlier(fold, folder, r, t)
    ensures x <= r
    decreases |x|
  {
    if x != [] {
      assert p[0] == x[0] && t[0] == x[0];
      if r[0] != x[0] {
        OneWay(fold, folder.children, p[0], r[0]);
      } else {
        var e :| e in folder.children && e.name == p[0] && Earlier(fold, e.kind, p[1..], r[1..]);
        var f :| f in folder.children && f.name == r[0] && Earlier(fold, f.kind, r[1..], t[1..]);
        assert e == f;
        FoldersAreNotInterleaved(fold, e.kind, left - 1, x[1..], p[1..], r[1..], t[1..]);
        assert x == [x[0]] + x[1..] && r == [r[0]] + r[1..];
      }
    }
  }

  // ----------------------------------------------------------------- what is counted

  /** Entries listed in a folder and in the folders entered from it, whatever the order. */
  function Listed(folder: Kind, left: nat): (n: nat)
    requires folder.Folder?
    decreases left, 1, 0
  {
    |folder.children| + if left == 0 || folder.faulty then 0 else ListedBelow(folder.children, left)
  }

  function ListedBelow(es: seq<Entry>, left: nat): (n: nat)
    requires left > 0
    decreases left, 0, |es|
  {
    if es == [] then 0 else ListedBelow(es[..|es| - 1], left) + ListedThrough(es[|es| - 1], left)
  }

  function ListedThrough(e: Entry, left: nat): (n: nat)
    requires left > 0
    decreases left, 0, 0
  {
    if e.kind.Folder? && e.name !in {".git", ".hub", ".venv", "node_modules", "target", "dist", "build", "__pycache__"}
    then Listed(e.kind, left - 1) else 0
  }

  lemma {:induction false} ListedInParts(a: seq<Entry>, b: seq<Entry>, left: nat)
    requires left > 0
    ensures ListedBelow(a + b, left) == ListedBelow(a, left) + ListedBelow(b, left)
    decreases |b|
  {
    hide ListedThrough;
    if b == [] {
      assert a + b == a;
    } else {
      assert (a + b)[..|a + b| - 1] == a + b[..|b| - 1];
      ListedInParts(a, b[..|b| - 1], left);
    }
  }

  lemma ListedOne(e: Entry, left: nat)
    requires left > 0
    ensures ListedBelow([e], left) == ListedThrough(e, left)
  {
    assert [e][..0] == [];
  }

  lemma {:induction false} ListedInserted(e: Entry, s: seq<Entry>, before: (Entry, Entry) -> bool, left: nat)
    requires left > 0
    ensures ListedBelow(Insert(e, s, before), left) == ListedBelow(s, left) + ListedThrough(e, left)
  {
    hide ListedThrough, ListedBelow;
    ListedOne(e, left);
    if s == [] || before(e, s[0]) {
      ListedInParts([e], s, left);
    } else {
      ListedInserted(e, s[1..], before, left);
      ListedInParts([s[0]], Insert(e, s[1..], before), left);
      ListedInParts([s[0]], s[1..], left);
      assert s == [s[0]] + s[1..];
    }
  }

  lemma {:induction false} ListedSorted(s: seq<Entry>, before: (Entry, Entry) -> bool, left: nat)
    requires left > 0
    ensures ListedBelow(Sort(s, before), left) == ListedBelow(s, left)
  {
    hide ListedThrough;
    if s != [] {
      ListedSorted(s[..|s| - 1], before, left);
      ListedInserted(s[|s| - 1], Sort(s[..|s| - 1], before), before, left);
    }
  }

  lemma {:induction false} OthersListNothing(children: seq<Entry>, left: nat)
    requires left > 0
    ensures ListedBelow(Subfolders(children), left) == ListedBelow(children, left)
  {
    if children != [] {
      var init, e := children[..|children| - 1], children[|children| - 1];
      OthersListNothing(init, left);
      ListedInParts(Subfolders(init), if e.kind.Folder? && e.name !in SKIP_DIRECTORIES then [e] else [], left);
      ListedOne(e, left);
    }
  }

  lemma {:induction false} ScannedInParts(a: seq<Stop>, b: seq<Stop>)
    ensures Scanned(a + b) == Scanned(a) + Scanned(b)
  {
    if a == [] {
      assert [] + b == b;
    } else {
      ScannedInParts(a[1..], b);
      assert (a + b)[1..] == a[1..] + b;
    }
  }

  /** A tour scans every entry of every folder it enters once. */
  lemma {:induction false} TourScansListed(q: Search, root: Path, path: Path, folder: Kind, left: nat)
    requires folder.Folder?
    ensures Scanned(Tour(q, root, path, folder, left)) == Listed(folder, left)
    decreases left, 1, 0
  {
    hide TourAll, ListedBelow, Subfolders;
    var here, es := Here(q, root, path, folder), Deeper(q, folder, left);
    ScannedInParts([here], TourAll(q, root, path, es, left));
    assert Scanned([here]) == here.scans + Scanned([]);
    if left > 0 && !folder.faulty {
      DeeperMembers(q, folder, left);
      TourAllScansListed(q, root, path, es, left);
      ListedSorted(Subfolders(folder.children), FoldedOrder(q.fold), left);
      OthersListNothing(folder.children, left);
    } else {
      NothingDeeper(q, root, path, left);
    }
  }

  lemma NothingDeeper(q: Search, root: Path, path: Path, left: nat)
    ensures Scanned(TourAll(q, root, path, [], left)) == 0
  {
  }

  lemma {:induction false} TourAllScansListed(q: Search, root: Path, path: Path, es: seq<Entry>, left: nat)
    requires left > 0 && forall e :: e in es ==> e.kind.Folder? && e.name !in SKIP_DIRECTORIES
    ensures Scanned(TourAll(q, root, path, es, left)) == ListedBelow(es, left)
    decreases left, 0, |es|
  {
    hide Tour, Listed;
    if es == [] {
      NothingDeeper(q, root, path, left);
    } else {
      var first := Tour(q, root, path + [es[0].name], es[0].kind, left - 1);
      assert es[0] in es;
      TourScansListed(q, root, path + [es[0].name], es[0].kind, left - 1);
      TourAllScansListed(q, root, path, es[1..], left);
      ScannedInParts(first, TourAll(q, root, path, es[1..], left));
      ListedFirst(es, left);
      hide ListedBelow, Scanned;
    }
  }

  lemma ListedFirst(es: seq<Entry>, left: nat)
    requires es != [] && left > 0
    ensures ListedBelow(es, left) == ListedThrough(es[0], left) + ListedBelow(es[1..], left)
  {
    ListedInParts([es[0]], es[1..], left);
    ListedOne(es[0], left);
    assert es == [es[0]] + es[1..];
    hide *;
  }

  // ------------------------------------------------------------------ over all roots

  /** What a root makes available: the file it names, or the files within reach of the directory it names. */
  ghost predicate Offers(q: Search, r: Root, maxDepth: nat, m: Match) {
    match r
    case Ignored => false
    case FileRoot(parent, name) => name == q.filename && m == Match(parent, parent + [name])
    case FolderRoot(path, folder) =>
      folder.Folder? && m.root == path && path <= m.path && Reaches(q, folder, maxDepth, m.path[|path|..])
  }

  function ListedByRoot(q: Search, r: Root, maxDepth: nat): (n: nat) {
    match r
    case Ignored => 0
    case FileRoot(_, name) => if name == q.filename then 1 else 0
    case FolderRoot(_, folder) => if folder.Folder? then Listed(folder, maxDepth) else 0
  }

  function ListedByRoots(q: Search, roots: seq<Root>, maxDepth: nat): (n: nat) {
    if roots == [] then 0 else ListedByRoot(q, roots[0], maxDepth) + ListedByRoots(q, roots[1..], maxDepth)
  }

  lemma RootTourOffers(q: Search, r: Root, maxDepth: nat, m: Match)
    ensures m in Found(RootTour(q, r, maxDepth)) <==> Offers(q, r, maxDepth, m)
    ensures Scanned(RootTour(q, r, maxDepth)) == ListedByRoot(q, r, maxDepth)
  {
    hide Tour, Reaches, Listed;
    match r
    case Ignored =>
    case FileRoot(parent, name) =>
      var stop := Stop(1, [Match(parent, parent + [name])]);
      assert Found([stop]) == stop.matches + Found([]) && Scanned([stop]) == 1 + Scanned([]);
    case FolderRoot(path, folder) =>
      if folder.Folder? {
        TourScansListed(q, path, path, folder, maxDepth);
        TourStaysUnder(q, path, path, folder, maxDepth);
        if m.root == path && path <= m.path {
          TourFindsReachable(q, path, path, folder, maxDepth, m.path[|path|..]);
          assert path + m.path[|path|..] == m.path;
        }
      }
  }

  /** The whole tour finds and counts what the roots offer, root by root in the order given. */
  lemma {:induction false} RootsInOrder(q: Search, roots: seq<Root>, maxDepth: nat, m: Match)
    ensures m in Found(WholeTour(q, roots, maxDepth)) <==> exists r :: r in roots && Offers(q, r, maxDepth, m)
    ensures Scanned(WholeTour(q, roots, maxDepth)) == ListedByRoots(q, roots, maxDepth)
    ensures roots != [] ==>
              Found(WholeTour(q, roots, maxDepth)) == Found(RootTour(q, roots[0], maxDepth)) + Found(WholeTour(q, roots[1..], maxDepth))
    decreases |roots|
  {
    hide RootTour, Offers;
    if roots != [] {
      RootsInOrder(q, roots[1..], maxDepth, m);
      RootTourOffers(q, roots[0], maxDepth, m);
      FoundInParts(RootTour(q, roots[0], maxDepth), WholeTour(q, roots[1..], maxDepth));
      ScannedInParts(RootTour(q, roots[0], maxDepth), WholeTour(q, roots[1..], maxDepth));
      assert forall r :: r in roots <==> r == roots[0] || r in roots[1..];
    }
  }
}
