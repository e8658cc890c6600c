/** Bounded discovery of metadata files below trusted roots. */
module DirectoryWalk {
  import opened Sorting
  import opened TextOrder

  datatype Entry = Entry(name: string, kind: Kind)

  /** What a directory scan sees. `Unreadable` fails inspection; a `faulty` folder lists its
  children and then fails, so that they are counted but not used. */
  datatype Kind = Link | Unreadable | File | Other | Folder(children: seq<Entry>, faulty: bool)

  type Path = seq<string>

  /** A root as given: a link or something unresolvable, a file, or a directory. */
  datatype Root = Ignored | FileRoot(parent: Path, name: string) | FolderRoot(path: Path, folder: Kind)

  datatype Match = Match(root: Path, path: Path)

  datatype Outcome = Completed | DepthInvalid | EntriesInvalid | EntryLimit | FileLimit

  const MAX_DISCOVERY_DEPTH := 32
  const MAX_DISCOVERY_ENTRIES := 1_000_000
  const SKIP_DIRECTORIES := {".git", ".hub", ".venv", "node_modules", "target", "dist", "build", "__pycache__"}

  // ---------------------------------------------------------------- one directory

  function Matching(children: seq<Entry>, filename: string): (r: seq<Entry>) {
    if children == [] then []
    else
      var e := children[|children| - 1];
      Matching(children[..|children| - 1], filename) + if e.kind.File? && e.name == filename then [e] else []
  }

  function Subfolders(children: seq<Entry>): (r: seq<Entry>)
    ensures forall i :: 0 <= i < |r| ==> r[i].kind.Folder?
  {
    if children == [] then []
    else
      var e := children[|children| - 1];
      Subfolders(children[..|children| - 1]) + if e.kind.Folder? && e.name !in SKIP_DIRECTORIES then [e] else []
  }

  /** Order of folded names; entries with the same folded name keep their places. */
  function FoldedOrder(fold: string -> string): (before: (Entry, Entry) -> bool) {
    (a: Entry, b: Entry) => TextLess(fold(a.name), fold(b.name))
  }

  function ByName(s: seq<Entry>, fold: string -> string): (r: seq<Entry>)
    ensures multiset(r) == multiset(s)
    ensures |r| == |s|
  {
    Sort(s, FoldedOrder(fold))
  }

  lemma ByNameKeepsMembers(s: seq<Entry>, fold: string -> string)
    ensures forall e :: e in ByName(s, fold) <==> e in s
  {
    SameMembers(ByName(s, fold), s);
  }

  lemma FoldedOrderRanks(fold: string -> string)
    ensures Ranks(FoldedOrder(fold))
  {
    var before := FoldedOrder(fold);
    forall a, b ensures before(a, b) ==> !before(b, a) { TextTotal(fold(a.name), fold(b.name)); }
    forall a, b, c ensures before(c, a) ==> before(b, a) || before(c, b) {
      TextTotal(fold(a.name), fold(b.name));
      if TextLess(fold(c.name), fold(a.name)) && TextLess(fold(a.name), fold(b.name)) {
        TextTransitive(fold(c.name), fold(a.name), fold(b.name));
      }
    }
  }

  /** Children are visited and files yielded in the order of their folded names. */
  lemma ByNameAscends(s: seq<Entry>, fold: string -> string)
    ensures forall i, j :: 0 <= i < j < |ByName(s, fold)| ==>
      !TextLess(fold(ByName(s, fold)[j].name), fold(ByName(s, fold)[i].name))
  {
    FoldedOrderRanks(fold);
    SortAscends(s, FoldedOrder(fold));
    var r := ByName(s, fold);
    forall i, j | 0 <= i < j < |r| ensures !TextLess(fold(r[j].name), fold(r[i].name)) {
      assert !FoldedOrder(fold)(r[j], r[i]);
    }
  }

  // ------------------------------------------------------------- the recursive walk

  /** One visited directory: how many entries its scan counts and which files it yields. */
  datatype Stop = Stop(scans: nat, matches: seq<Match>)

  datatype Search = Search(filename: string, fold: string -> string)

  function Matches(root: Path, path: Path, es: seq<Entry>): (r: seq<Match>)
    ensures |r| == |es| && forall i :: 0 <= i < |r| ==> r[i] == Match(root, path + [es[i].name])
  {
    seq(|es|, i requires 0 <= i < |es| => Match(root, path + [es[i].name]))
  }

  /** The stop made at a directory. */
  function Here(q: Search, root: Path, path: Path, folder: Kind): (r: Stop)
    requires folder.Folder?
  {
    Stop(|folder.children|,
      if folder.faulty then [] else Matches(root, path, ByName(Matching(folder.children, q.filename), q.fold)))
  }

  /** The subfolders entered next. */
  function Deeper(q: Search, folder: Kind, left: nat): (r: seq<Entry>)
    requires folder.Folder?
    ensures left == 0 ==> r == []
    ensures forall e :: e in r ==> e.kind.Folder?
  {
    ByNameKeepsMembers(Subfolders(folder.children), q.fold);
    if left == 0 || folder.faulty then [] else ByName(Subfolders(folder.children), q.fold)
  }

  /** Directories below (and including) a folder in preorder; `left` more levels may be entered. */
  function Tour(q: Search, root: Path, path: Path, folder: Kind, left: nat): (r: seq<Stop>)
    requires folder.Folder?
    decreases left, 1, 0
  {
    [Here(q, root, path, folder)] + TourAll(q, root, path, Deeper(q, folder, left), left)
  }

  function TourAll(q: Search, root: Path, path: Path, es: seq<Entry>, left: nat): (r: seq<Stop>)
    requires forall e :: e in es ==> e.kind.Folder?
    requires left == 0 ==> es == []
    decreases left, 0, |es|
  {
    if es == [] then []
    else Tour(q, root, path + [es[0].name], es[0].kind, left - 1) + TourAll(q, root, path, es[1..], left)
  }

  function RootTour(q: Search, r: Root, maxDepth: nat): (result: seq<Stop>) {
    match r
    case Ignored => []
    case FileRoot(parent, name) => if name == q.filename then [Stop(1, [Match(parent, parent + [name])])] else []
    case FolderRoot(path, folder) => if folder.Folder? then Tour(q, path, path, folder, maxDepth) else []
  }

  function WholeTour(q: Search, roots: seq<Root>, maxDepth: nat): (r: seq<Stop>) {
    if roots == [] then [] else RootTour(q, roots[0], maxDepth) + WholeTour(q, roots[1..], maxDepth)
  }

  /** All files of a tour. */
  function Found(stops: seq<Stop>): (r: seq<Match>) {
    if stops == [] then [] else stops[0].matches + Found(stops[1..])
  }

  /** All entries a tour scans. */
  function Scanned(stops: seq<Stop>): (r: nat) {
    if stops == [] then 0 else stops[0].scans + Scanned(stops[1..])
  }

  // --------------------------------------------------------- the tour under its limits

  datatype Limits = Limits(files: int, entries: int)

  datatype Ride = Ride(yielded: seq<Match>, outcome: Outcome)

  /** Files that may still be yielded. */
  function Room(l: Limits, matched: nat): (r: nat) {
    if l.files > matched then l.files - matched else 0
  }

  /** What a caller sees of a tour that starts with the given counters. */
  function Drive(l: Limits, stops: seq<Stop>, scanned: nat, matched: nat): (r: Ride) {
    if stops == [] then Ride([], Completed)
    else if scanned + stops[0].scans > l.entries then Ride([], EntryLimit)
    else if |stops[0].matches| > Room(l, matched) then Ride(stops[0].matches[..Room(l, matched)], FileLimit)
    else After(stops[0].matches, Drive(l, stops[1..], scanned + stops[0].scans, matched + |stops[0].matches|))
  }

  function After(first: seq<Match>, rest: Ride): (r: Ride) {
    rest.(yielded := first + rest.yielded)
  }

  /** `_iter_bounded_metadata_files` consumed to its end. */
  function Discover(q: Search, roots: seq<Root>, maxFiles: int, maxDepth: int, maxEntries: int): (r: Ride) {
    if !(0 <= maxDepth <= MAX_DISCOVERY_DEPTH) then Ride([], DepthInvalid)
    else if !(1 <= maxEntries <= MAX_DISCOVERY_ENTRIES) then Ride([], EntriesInvalid)
    else Drive(Limits(maxFiles, maxEntries), WholeTour(q, roots, maxDepth), 0, 0)
  }

  // -------------------------------------------------------------- the explicit stack

  datatype Pending = Pending(path: Path, folder: Kind, depth: nat)

  predicate Stacked(pending: seq<Pending>, maxDepth: nat) {
    forall i :: 0 <= i < |pending| ==> pending[i].folder.Folder? && pending[i].depth <= maxDepth
  }

  /** The stops still to come for a stack: its top first. */
  function Ahead(q: Search, root: Path, pending: seq<Pending>, maxDepth: nat): (r: seq<Stop>)
    requires Stacked(pending, maxDepth)
  {
    if pending == [] then []
    else
      var top := pending[|pending| - 1];
      Tour(q, root, top.path, top.folder, maxDepth - top.depth) + Ahead(q, root, pending[..|pending| - 1], maxDepth)
  }

  lemma TopFirst(q: Search, root: Path, pending: seq<Pending>, top: Pending, maxDepth: nat)
    requires Stacked(pending, maxDepth) && top.folder.Folder? && top.depth <= maxDepth
    ensures Stacked(pending + [top], maxDepth)
    ensures Ahead(q, root, pending + [top], maxDepth)
         == Tour(q, root, top.path, top.folder, maxDepth - top.depth) + Ahead(q, root, pending, maxDepth)
  {
    hide Tour;
    assert (pending + [top])[..|pending|] == pending;
  }

  lemma FirstChild(q: Search, root: Path, path: Path, es: seq<Entry>, left: nat, below: seq<Stop>)
    requires es != [] && left > 0 && forall e :: e in es ==> e.kind.Folder?
    ensures TourAll(q, root, path, es, left) + below
         == Tour(q, root, path + [es[0].name], es[0].kind, left - 1) + (TourAll(q, root, path, es[1..], left) + below)
  {
    hide Tour;
  }

  /** Combines what was already seen with what the rest would show. */
  function Continue(yielded: seq<Match>, outcome: Outcome, rest: Ride): (r: Ride) {
    if outcome.Completed? then After(yielded, rest) else Ride(yielded, outcome)
  }

  lemma EmptyTour(q: Search, root: Path, path: Path, left: nat, rest: seq<Stop>)
    ensures TourAll(q, root, path, [], left) + rest == rest
  {
  }

  lemma TopTour(q: Search, root: Path, top: Pending, left: nat, stack: seq<Stop>, rest: seq<Stop>)
    requires top.folder.Folder?
    ensures var next := TourAll(q, root, top.path, Deeper(q, top.folder, left), left) + stack;
            && Tour(q, root, top.path, top.folder, left) + stack + rest == [Here(q, root, top.path, top.folder)] + (next + rest)
            && |Tour(q, root, top.path, top.folder, left) + stack| == |next| + 1
  {
    hide TourAll, Here, Deeper;
  }

  lemma OneStop(l: Limits, stop: Stop, rest: seq<Stop>, scanned: nat, matched: nat)
    ensures Drive(l, [stop] + rest, scanned, matched)
         == if scanned + stop.scans > l.entries then Ride([], EntryLimit)
            else if |stop.matches| > Room(l, matched) then Ride(stop.matches[..Room(l, matched)], FileLimit)
            else After(stop.matches, Drive(l, rest, scanned + stop.scans, matched + |stop.matches|))
  {
    assert ([stop] + rest)[1..] == rest;
  }

  // ------------------------------------------------------------------ the generator

  /** The scan loop of one directory. */
  method ScanFolder(q: Search, children: seq<Entry>, descend: bool, already: nat, l: Limits)
    returns (ok: bool, scanned: nat, candidates: seq<Entry>, childDirectories: seq<Entry>)
    requires already <= l.entries
    ensures ok <==> already + |children| <= l.entries
    ensures ok ==> scanned == already + |children| && candidates == Matching(children, q.filename)
    ensures ok ==> childDirectories == if descend then Subfolders(children) else []
  {
    scanned, candidates, childDirectories := already, [], [];
    for i := 0 to |children|
      invariant scanned == already + i <= l.entries
      invariant candidates == Matching(children[..i], q.filename)
      invariant childDirectories == if descend then Subfolders(children[..i]) else []
    {
      var entry := children[i];
      assert children[..i + 1][..i] == children[..i];
      scanned := scanned + 1;
      if scanned > l.entries { return false, scanned, [], []; }
      match entry.kind {
        case Link =>
        case Unreadable =>
        case Folder(_, _) =>
          if descend && entry.name !in SKIP_DIRECTORIES { childDirectories := childDirectories + [entry]; }
        case File =>
          if entry.name == q.filename { candidates := candidates + [entry]; }
        case Other =>
      }
    }
    assert children[..|children|] == children;
    ok := true;
  }

  /** The yield loop of one directory. */
  method YieldFiles(root: Path, path: Path, candidates: seq<Entry>, already: nat, l: Limits)
    returns (ok: bool, yielded: seq<Match>, matched: nat)
    ensures ok <==> |candidates| <= Room(l, already)
    ensures yielded == if ok then Matches(root, path, candidates) else Matches(root, path, candidates)[..Room(l, already)]
    ensures ok ==> matched == already + |candidates|
  {
    yielded, matched := [], already;
    for i := 0 to |candidates|
      invariant matched == already + i && i <= Room(l, already)
      invariant yielded == Matches(root, path, candidates)[..i]
    {
      if matched >= l.files { return false, yielded, matched; }
      matched := matched + 1;
      yielded := yielded + [Match(root, path + [candidates[i].name])];
    }
    ok := true;
  }

  method PushChildren(q: Search, root: Path, path: Path, dirs: seq<Entry>, depth: nat, stack: seq<Pending>, maxDepth: nat)
    returns (pending: seq<Pending>)
    requires Stacked(stack, maxDepth) && depth <= maxDepth
    requires (forall e :: e in dirs ==> e.kind.Folder?) && (depth == maxDepth ==> dirs == [])
    ensures Stacked(pending, maxDepth)
    ensures Ahead(q, root, pending, maxDepth) == TourAll(q, root, path, dirs, maxDepth - depth) + Ahead(q, root, stack, maxDepth)
  {
    hide Tour, TourAll, Ahead, Stacked;
    pending := stack;
    ghost var below := Ahead(q, root, stack, maxDepth);
    EmptyTour(q, root, path, maxDepth - depth, below);
    assert dirs[|dirs|..] == [];
    for i := |dirs| downto 0
      invariant Stacked(pending, maxDepth) && forall e :: e in dirs[i..] ==> e.kind.Folder?
      invariant Ahead(q, root, pending, maxDepth) == TourAll(q, root, path, dirs[i..], maxDepth - depth) + below
    {
      var top := Pending(path + [dirs[i].name], dirs[i].kind, depth + 1);
      assert dirs[i] in dirs;
      TopFirst(q, root, pending, top, maxDepth);
      FirstChild(q, root, path, dirs[i..], maxDepth - depth, below);
      assert dirs[i..][1..] == dirs[i + 1..];
      pending := pending + [top];
    }
    assert dirs[0..] == dirs;
  }

  /** One turn of the stack loop: the popped directory is scanned, yields and pushes its children. */
  method Visit(q: Search, root: Path, top: Pending, stack: seq<Pending>, maxDepth: nat, l: Limits,
      scanned0: nat, matched0: nat, ghost rest: seq<Stop>)
    returns (outcome: Outcome, yielded: seq<Match>, scanned: nat, matched: nat, pending: seq<Pending>)
    requires Stacked(stack, maxDepth) && top.folder.Folder? && top.depth <= maxDepth && scanned0 <= l.entries
    ensures Stacked(pending, maxDepth)
    ensures outcome.Completed? ==> scanned <= l.entries
    ensures outcome.Completed? ==>
      Ahead(q, root, pending, maxDepth)
      == TourAll(q, root, top.path, Deeper(q, top.folder, maxDepth - top.depth), maxDepth - top.depth) + Ahead(q, root, stack, maxDepth)
    ensures Drive(l, [Here(q, root, top.path, top.folder)] + rest, scanned0, matched0)
         == Continue(yielded, outcome, Drive(l, rest, scanned, matched))
  {
    hide TourAll, Ahead, Drive, Stacked, Matching, Subfolders, ByName, Tour;
    outcome, yielded, matched, pending := Completed, [], matched0, stack;
    ghost var stop := Here(q, root, top.path, top.folder);
    OneStop(l, stop, rest, scanned0, matched0);
    var ok, candidates, childDirectories;
    ok, scanned, candidates, childDirectories := ScanFolder(q, top.folder.children, top.depth < maxDepth, scanned0, l);
    if !ok {
      outcome := EntryLimit;
      return;
    }
    if top.folder.faulty {
      EmptyTour(q, root, top.path, maxDepth - top.depth, Ahead(q, root, stack, maxDepth));
      return;
    }
    ok, yielded, matched := YieldFiles(root, top.path, ByName(candidates, q.fold), matched0, l);
    if !ok {
      outcome := FileLimit;
      return;
    }
    var dirs := ByName(childDirectories, q.fold);
    assert dirs == Deeper(q, top.folder, maxDepth - top.depth);
    pending := PushChildren(q, root, top.path, dirs, top.depth, stack, maxDepth);
  }

  /** The stack loop below one root; `rest` is what the caller will do afterwards. */
  method WalkTree(q: Search, root: Path, folder: Kind, maxDepth: nat, l: Limits, scanned0: nat, matched0: nat, ghost rest: seq<Stop>)
    returns (outcome: Outcome, yielded: seq<Match>, scanned: nat, matched: nat)
    requires folder.Folder? && scanned0 <= l.entries
    ensures Drive(l, Tour(q, root, root, folder, maxDepth) + rest, scanned0, matched0)
         == Continue(yielded, outcome, Drive(l, rest, scanned, matched))
    ensures outcome.Completed? ==> scanned <= l.entries
  {
    hide Tour, TourAll, Drive, Here, Deeper, Continue, After;
    outcome, yielded, scanned, matched := Completed, [], scanned0, matched0;
    var pending := [Pending(root, folder, 0)];
    ghost var whole := Drive(l, Tour(q, root, root, folder, maxDepth) + rest, scanned0, matched0);
    StartsWithRoot(q, root, folder, maxDepth);
    NothingYet(whole);
    while pending != []
      invariant Stacked(pending, maxDepth) && scanned <= l.entries && outcome.Completed?
      invariant whole == Continue(yielded, outcome, Drive(l, Ahead(q, root, pending, maxDepth) + rest, scanned, matched))
      decreases |Ahead(q, root, pending, maxDepth)|
    {
      var top := pending[|pending| - 1];
      ghost var before := Ahead(q, root, pending, maxDepth);
      ghost var left := maxDepth - top.depth;
      pending := pending[..|pending| - 1];
      ghost var stack := Ahead(q, root, pending, maxDepth);
      TopTour(q, root, top, left, stack, rest);
      ghost var next := TourAll(q, root, top.path, Deeper(q, top.folder, left), left) + stack;
      ghost var seen := yielded;
      var files;
      outcome, files, scanned, matched, pending := Visit(q, root, top, pending, maxDepth, l, scanned, matched, next + rest);
      yielded := yielded + files;
      Extend(seen, files, outcome, Drive(l, next + rest, scanned, matched));
      if !outcome.Completed? {
        Stopped(yielded, outcome, Drive(l, next + rest, scanned, matched), Drive(l, rest, scanned, matched));
        return;
      }
    }
    assert [] + rest == rest;
  }

  lemma NothingYet(r: Ride)
    ensures Continue([], Completed, r) == r
  {
  }

  lemma Stopped(yielded: seq<Match>, outcome: Outcome, r: Ride, r2: Ride)
    requires !outcome.Completed?
    ensures Continue(yielded, outcome, r) == Continue(yielded, outcome, r2)
  {
  }

  lemma Extend(seen: seq<Match>, files: seq<Match>, outcome: Outcome, r: Ride)
    ensures Continue(seen, Completed, Continue(files, outcome, r)) == Continue(seen + files, outcome, r)
  {
    assert seen + (files + r.yielded) == (seen + files) + r.yielded;
  }

  lemma StartsWithRoot(q: Search, root: Path, folder: Kind, maxDepth: nat)
    requires folder.Folder?
    ensures Stacked([Pending(root, folder, 0)], maxDepth)
    ensures Ahead(q, root, [Pending(root, folder, 0)], maxDepth) == Tour(q, root, root, folder, maxDepth)
  {
    TopFirst(q, root, [], Pending(root, folder, 0), maxDepth);
    assert [] + [Pending(root, folder, 0)] == [Pending(root, folder, 0)];
  }

  /** `_iter_bounded_metadata_files`, consumed to its end. */
  method IterBoundedMetadataFiles(q: Search, roots: seq<Root>, maxFiles: int, maxDepth: int, maxEntries: int)
    returns (yielded: seq<Match>, outcome: Outcome)
    ensures Ride(yielded, outcome) == Discover(q, roots, maxFiles, maxDepth, maxEntries)
  {
    if !(0 <= maxDepth <= MAX_DISCOVERY_DEPTH) { return [], DepthInvalid; }
    if !(1 <= maxEntries <= MAX_DISCOVERY_ENTRIES) { return [], EntriesInvalid; }
    yielded, outcome := VisitRoots(q, roots, maxDepth, Limits(maxFiles, maxEntries));
  }

  method VisitRoots(q: Search, roots: seq<Root>, maxDepth: nat, l: Limits) returns (yielded: seq<Match>, outcome: Outcome)
    requires l.entries >= 0
    ensures Ride(yielded, outcome) == Drive(l, WholeTour(q, roots, maxDepth), 0, 0)
  {
    hide Drive, RootTour, WholeTour, Continue;
    ghost var whole := Drive(l, WholeTour(q, roots, maxDepth), 0, 0);
    var scanned: nat, matched: nat := 0, 0;
    yielded, outcome := [], Completed;
    NothingYet(whole);
    assert roots[0..] == roots;
    for i := 0 to |roots|
      invariant scanned <= l.entries && outcome.Completed?
      invariant whole == Continue(yielded, outcome, Drive(l, WholeTour(q, roots[i..], maxDepth), scanned, matched))
    {
      ghost var rest := WholeTour(q, roots[i + 1..], maxDepth);
      ghost var seen := yielded;
      NextRoot(q, roots, i, maxDepth);
      var files;
      outcome, files, scanned, matched := VisitRoot(q, roots[i], maxDepth, l, scanned, matched, rest);
      yielded := yielded + files;
      Extend(seen, files, outcome, Drive(l, rest, scanned, matched));
      if !outcome.Completed? {
        FinalRide(yielded, outcome, Drive(l, rest, scanned, matched));
        return;
      }
    }
    NoMoreRoots(q, roots, maxDepth);
    FullRide(l, yielded, scanned, matched);
  }

  lemma NextRoot(q: Search, roots: seq<Root>, i: nat, maxDepth: nat)
    requires i < |roots|
    ensures WholeTour(q, roots[i..], maxDepth) == RootTour(q, roots[i], maxDepth) + WholeTour(q, roots[i + 1..], maxDepth)
  {
    hide RootTour;
    assert roots[i..][1..] == roots[i + 1..];
  }

  lemma NoMoreRoots(q: Search, roots: seq<Root>, maxDepth: nat)
    ensures WholeTour(q, roots[|roots|..], maxDepth) == []
  {
  }

  method VisitRoot(q: Search, root: Root, maxDepth: nat, l: Limits, scanned0: nat, matched0: nat, ghost rest: seq<Stop>)
    returns (outcome: Outcome, yielded: seq<Match>, scanned: nat, matched: nat)
    requires scanned0 <= l.entries
    ensures Drive(l, RootTour(q, root, maxDepth) + rest, scanned0, matched0)
         == Continue(yielded, outcome, Drive(l, rest, scanned, matched))
    ensures outcome.Completed? ==> scanned <= l.entries
  {
    hide Drive, Tour, Continue;
    outcome, yielded, scanned, matched := Completed, [], scanned0, matched0;
    match root {
      case Ignored =>
        NoStop(l, rest, scanned, matched);
      case FileRoot(parent, name) =>
        if name == q.filename {
          outcome, yielded, scanned, matched := VisitFile(l, parent, name, scanned, matched, rest);
        } else {
          NoStop(l, rest, scanned, matched);
        }
      case FolderRoot(path, folder) =>
        if folder.Folder? {
          outcome, yielded, scanned, matched := WalkTree(q, path, folder, maxDepth, l, scanned, matched, rest);
        } else {
          NoStop(l, rest, scanned, matched);
        }
    }
  }

  /** A root that is itself the file asked for. */
  method VisitFile(l: Limits, parent: Path, name: string, scanned0: nat, matched0: nat, ghost rest: seq<Stop>)
    returns (outcome: Outcome, yielded: seq<Match>, scanned: nat, matched: nat)
    requires scanned0 <= l.entries
    ensures Drive(l, [Stop(1, [Match(parent, parent + [name])])] + rest, scanned0, matched0)
         == Continue(yielded, outcome, Drive(l, rest, scanned, matched))
    ensures outcome.Completed? ==> scanned <= l.entries
  {
    OneStop(l, Stop(1, [Match(parent, parent + [name])]), rest, scanned0, matched0);
    outcome, yielded, scanned, matched := Completed, [], scanned0 + 1, matched0;
    if scanned > l.entries {
      outcome := EntryLimit;
      return;
    }
    if matched >= l.files {
      outcome := FileLimit;
      return;
    }
    matched := matched + 1;
    yielded := [Match(parent, parent + [name])];
  }

  lemma NoStop(l: Limits, rest: seq<Stop>, scanned: nat, matched: nat)
    ensures Drive(l, [] + rest, scanned, matched) == Continue([], Completed, Drive(l, rest, scanned, matched))
  {
    assert [] + rest == rest;
  }

  lemma FinalRide(yielded: seq<Match>, outcome: Outcome, r: Ride)
    requires !outcome.Completed?
    ensures Continue(yielded, outcome, r) == Ride(yielded, outcome)
  {
  }

  lemma FullRide(l: Limits, yielded: seq<Match>, scanned: nat, matched: nat)
    ensures Continue(yielded, Completed, Drive(l, [], scanned, matched)) == Ride(yielded, Completed)
  {
    assert yielded + [] == yielded;
  }
}
