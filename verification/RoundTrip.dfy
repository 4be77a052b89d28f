/** Archiving a directory tree, and what extraction makes of archives: containment, links, round trip. */
module RoundTrip {
  import opened GoStrings
  import opened Paths
  import opened Disk
  import opened Archive

  // ---- Containment ----

  /** Where a header's entry goes: below the target directory, at plain names. */
  lemma HeaderPlace(cwd: string, dir: string, prefix: string, name: string)
    requires IsAbs(cwd) && Rel(prefix, name).Some? && !ClimbsOut(Rel(prefix, name).value)
    ensures
      var rel := Rel(prefix, name).value;
      Locate(cwd, JoinPath(dir, rel)) == Locate(cwd, dir) + Parse(rel).comps
  {
    CheckedPath(prefix, name);
    LocateJoin(cwd, dir, Parse(Rel(prefix, name).value).comps);
  }

  /** The target folder stays and nothing outside it changes. */
  ghost predicate Contained(base: Loc, before: Nodes, after: Nodes) {
    Rooted(after) && IsFolder(after, base) && SameOutside(base, before, after)
  }

  /** Adding or replacing something that is not a folder, in an existing folder at or below the base. */
  lemma PutContained(base: Loc, before: Nodes, at: Loc, node: Node)
    requires Rooted(before) && IsFolder(before, base) && base <= at && at != [] && !IsFolder(before, at)
    requires IsFolder(before, Parent(at)) && node != Folder
    ensures Contained(base, before, before[at := node])
  {
    var after := before[at := node];
    assert at != base;
    forall l | l in after && l != [] ensures IsFolder(after, Parent(l)) {
      if l == at {
        assert Parent(at) != at;
      }
    }
  }

  lemma MkdirContained(base: Loc, before: Nodes, at: Loc)
    requires Rooted(before) && IsFolder(before, base) && base <= at && MkdirAll(before, at).Ok?
    ensures Contained(base, before, MkdirAll(before, at).value)
  {
    MkdirAllRooted(before, at);
    MkdirAllAdds(before, at);
    forall l: Loc | l <= at && |l| < |base| ensures l in before {
      RootedAbove(before, base, |l|);
      assert l == base[..|l|];
    }
  }

  lemma WriteContained(base: Loc, before: Nodes, at: Loc, data: Bytes, truncate: bool)
    requires Rooted(before) && IsFolder(before, base) && base <= at && Write(before, at, data, truncate).Ok?
    ensures Contained(base, before, Write(before, at, data, truncate).value)
  {
    var after := Write(before, at, data, truncate).value;
    if after != before {
      PutContained(base, before, at, after[at]);
    }
  }

  lemma CreateContained(base: Loc, before: Nodes, at: Loc, node: Node)
    requires Rooted(before) && IsFolder(before, base) && base <= at && Create(before, at, node).Ok? && node != Folder
    ensures Contained(base, before, Create(before, at, node).value)
  {
    PutContained(base, before, at, node);
  }

  lemma ExtractOneContained(nodes: Nodes, cwd: string, dir: string, prefix: string, h: Header)
    requires IsAbs(cwd) && Rooted(nodes) && IsFolder(nodes, Locate(cwd, dir))
    requires ExtractOne(nodes, cwd, dir, prefix, h).Some?
    ensures Contained(Locate(cwd, dir), nodes, ExtractOne(nodes, cwd, dir, prefix, h).value)
  {
    hide Locate, JoinPath, Rel, Parse, Clear, CheckLink, Contained;
    var base := Locate(cwd, dir);
    var rel := CheckPath(nodes, cwd, dir, prefix, h.name).value;
    HeaderPlace(cwd, dir, prefix, h.name);
    var at := Locate(cwd, JoinPath(dir, rel));
    assert base <= at;
    match h.kind {
      case Regular =>
        WriteContained(base, nodes, at, h.data, true);
      case Directory =>
        MkdirContained(base, nodes, at);
      case HardLinkEntry =>
        CreateContained(base, nodes, at, Lstat(nodes, Locate(cwd, h.link)).value);
      case SymLinkEntry =>
        CreateContained(base, nodes, at, Link(h.link));
      case Special =>
        Unchanged(base, nodes);
    }
  }

  lemma Unchanged(base: Loc, nodes: Nodes)
    requires Rooted(nodes) && IsFolder(nodes, base)
    ensures Contained(base, nodes, nodes)
  {
  }

  /** No archive changes anything outside the target directory. */
  lemma {:induction false} ExtractContained(nodes: Nodes, cwd: string, dir: string, prefix: string, hs: seq<Header>)
    requires IsAbs(cwd) && Rooted(nodes) && IsFolder(nodes, Locate(cwd, dir))
    ensures Contained(Locate(cwd, dir), nodes, Extract(nodes, cwd, dir, prefix, hs).nodes)
    decreases |hs|
  {
    hide ExtractOne, Locate;
    if hs != [] && ExtractOne(nodes, cwd, dir, prefix, hs[0]).Some? {
      ExtractOneContained(nodes, cwd, dir, prefix, hs[0]);
      ExtractContained(ExtractOne(nodes, cwd, dir, prefix, hs[0]).value, cwd, dir, prefix, hs[1..]);
    }
  }

  // ---- Links ----

  lemma JoinKeepsRoot(a: string, b: string)
    requires a != ""
    ensures IsAbs(JoinPath(a, b)) == IsAbs(a)
  {
    ParseJoin(a, b);
  }

  lemma DirKeepsRoot(path: string)
    requires IsAbs(path)
    ensures IsAbs(Dir(path)) && Dir(path) != ""
  {
    UpToSlashAbs(path);
    CleanIdempotent(UpToSlash(path));
    ParseNormal(UpToSlash(path));
    ShownNotEmpty(Parse(UpToSlash(path)));
  }

  lemma {:induction false} UpToSlashAbs(s: string)
    requires IsAbs(s)
    ensures IsAbs(UpToSlash(s))
  {
    if s[|s| - 1] != '/' {
      UpToSlashAbs(s[..|s| - 1]);
    }
  }

  /** `ensureBasePath` accepts a path exactly when the base's names begin the path's, what follows does not
      climb, and no link stands on the way; it returns what follows. */
  lemma CheckPathExactly(nodes: Nodes, cwd: string, root: string, base: string, target: string)
    ensures
      var b, t := Parse(base), Parse(target);
      var r := CheckPath(nodes, cwd, root, base, target);
      && (r.Some? <==>
            && b.rooted == t.rooted && Inside(b.comps, t.comps)
            && Clear(nodes, Locate(cwd, root), t.comps[|b.comps|..]))
      && (r.Some? ==> r.value == RelPath(t.comps[|b.comps|..]))
  {
    hide Locate, Parse, Clear, ClimbsOut, Show, Normal;
    var b, t := Parse(base), Parse(target);
    RelInside(base, target);
    if b.rooted == t.rooted && Inside(b.comps, t.comps) {
      var rest := t.comps[|b.comps|..];
      assert t.comps == b.comps + rest;
      CommonPrefix(b.comps, rest);
      RelParse(base, target);
      assert Ups(0) + rest == rest;
    }
  }

  /** Where a link entry leads, read from its own directory. */
  function LinkPath(path: string, link: string): string {
    if IsAbs(link) then link else JoinPath(Dir(path), link)
  }

  /** A link is accepted exactly when where it leads is absolute or relative as the prefix is, lies under
      the prefix by its names, and meets no link on the way. */
  lemma CheckLinkExactly(nodes: Nodes, cwd: string, dir: string, prefix: string, path: string, link: string)
    ensures
      var target := LinkPath(path, link);
      var under, comps := Parse(prefix).comps, Parse(target).comps;
      CheckLink(nodes, cwd, dir, prefix, path, link)
      <==> && IsAbs(target) == IsAbs(prefix) && Inside(under, comps)
           && Clear(nodes, Locate(cwd, dir), comps[|under|..])
  {
    hide Locate, Clear, CheckPath, Inside, JoinPath, Dir;
    var target := LinkPath(path, link);
    CheckPathExactly(nodes, cwd, dir, prefix, target);
    ParseRooted(prefix);
    ParseRooted(target);
  }

  /** Extracting to an absolute directory under a relative prefix refuses every link entry: the link's
      target is compared, as an absolute path, with the relative prefix. */
  lemma LinksRefused(nodes: Nodes, cwd: string, dir: string, prefix: string, path: string, link: string)
    requires IsAbs(path) && !IsAbs(prefix)
    ensures !CheckLink(nodes, cwd, dir, prefix, path, link)
  {
    hide JoinPath, Dir, CheckLink, Locate;
    DirKeepsRoot(path);
    JoinKeepsRoot(Dir(path), link);
    CheckLinkExactly(nodes, cwd, dir, prefix, path, link);
  }

  ghost predicate NoNewLinks(before: Nodes, after: Nodes) {
    forall l | l in after && after[l].Link? :: l in before && before[l] == after[l]
  }

  lemma ExtractOneNoLinks(nodes: Nodes, cwd: string, dir: string, prefix: string, h: Header)
    requires IsAbs(dir) && !IsAbs(prefix) && ExtractOne(nodes, cwd, dir, prefix, h).Some?
    ensures NoNewLinks(nodes, ExtractOne(nodes, cwd, dir, prefix, h).value)
    ensures h.kind != SymLinkEntry && h.kind != HardLinkEntry
  {
    hide Locate, JoinPath, Rel, Parse, Clear, CheckLink;
    var rel := CheckPath(nodes, cwd, dir, prefix, h.name).value;
    var path := JoinPath(dir, rel);
    JoinKeepsRoot(dir, rel);
    LinksRefused(nodes, cwd, dir, prefix, path, h.link);
    if h.kind.Directory? {
      MkdirAllAdds(nodes, Locate(cwd, path));
    }
  }

  /** Extraction to an absolute directory under a relative prefix never makes a link, and fails on the
      first link entry it reaches. */
  lemma {:induction false} ExtractMakesNoLinks(
    nodes: Nodes, cwd: string, dir: string, prefix: string, hs: seq<Header>)
    requires IsAbs(dir) && !IsAbs(prefix)
    ensures NoNewLinks(nodes, Extract(nodes, cwd, dir, prefix, hs).nodes)
    ensures Extract(nodes, cwd, dir, prefix, hs).ok
        ==> forall h | h in hs :: h.kind != SymLinkEntry && h.kind != HardLinkEntry
    decreases |hs|
  {
    hide ExtractOne;
    if hs != [] && ExtractOne(nodes, cwd, dir, prefix, hs[0]).Some? {
      ExtractOneNoLinks(nodes, cwd, dir, prefix, hs[0]);
      ExtractMakesNoLinks(ExtractOne(nodes, cwd, dir, prefix, hs[0]).value, cwd, dir, prefix, hs[1..]);
    }
  }

  // ---- Archiving ----

  datatype Tree = Leaf(data: Bytes) | Symlink(target: string) | Branch(kids: Forest)
  datatype Forest = Nil | More(name: string, tree: Tree, rest: Forest)

  function Names(f: Forest): set<string> {
    match f
    case Nil => {}
    case More(name, _, rest) => {name} + Names(rest)
  }

  /** Every directory's names are plain and distinct. */
  predicate WellNamed(t: Tree) {
    t.Branch? ==> WellNamedForest(t.kids)
  }

  predicate WellNamedForest(f: Forest) {
    match f
    case Nil => true
    case More(name, tree, rest) => Plain(name) && name !in Names(rest) && WellNamed(tree) && WellNamedForest(rest)
  }

  predicate LinkFree(t: Tree) {
    match t
    case Leaf(_) => true
    case Symlink(_) => false
    case Branch(kids) => LinkFreeForest(kids)
  }

  predicate LinkFreeForest(f: Forest) {
    f.More? ==> LinkFree(f.tree) && LinkFreeForest(f.rest)
  }

  /** The archive of the subtree found at the given names: each folder before what it holds. */
  function Listing(prefix: string, at: Loc, t: Tree): seq<Header>
    decreases t
  {
    var name := JoinPath(prefix, RelPath(at));
    match t
    case Leaf(data) => [Header(name, Regular, "", data)]
    case Symlink(target) => [Header(name, SymLinkEntry, target, [])]
    case Branch(kids) => [Header(name, Directory, "", [])] + ListingForest(prefix, at, kids)
  }

  function ListingForest(prefix: string, at: Loc, f: Forest): seq<Header>
    decreases f
  {
    match f
    case Nil => []
    case More(name, tree, rest) => Listing(prefix, at + [name], tree) + ListingForest(prefix, at, rest)
  }

  /** The nodes of a subtree placed at a location. */
  function Placed(at: Loc, t: Tree): Nodes
    decreases t
  {
    match t
    case Leaf(data) => map[at := File(data)]
    case Symlink(target) => map[at := Link(target)]
    case Branch(kids) => map[at := Folder] + PlacedForest(at, kids)
  }

  function PlacedForest(at: Loc, f: Forest): Nodes
    decreases f
  {
    match f
    case Nil => map[]
    case More(name, tree, rest) => Placed(at + [name], tree) + PlacedForest(at, rest)
  }

  /** Everything placed lies at or below the place. */
  lemma {:induction false} PlacedBelow(at: Loc, t: Tree)
    ensures forall l | l in Placed(at, t) :: at <= l
    ensures at in Placed(at, t)
    decreases t
  {
    if t.Branch? {
      PlacedForestBelow(at, t.kids);
    }
  }

  lemma {:induction false} PlacedForestBelow(at: Loc, f: Forest)
    ensures forall l | l in PlacedForest(at, f) :: |at| < |l| && at <= l && l[|at|] in Names(f)
    decreases f
  {
    if f.More? {
      PlacedBelow(at + [f.name], f.tree);
      PlacedForestBelow(at, f.rest);
      forall l | l in PlacedForest(at, f)
        ensures |at| < |l| && at <= l && l[|at|] in Names(f)
      {
        if l !in PlacedForest(at, f.rest) {
          assert at + [f.name] <= l;
        }
      }
    }
  }

  /** Two trees of nodes agree at two locations. */
  ghost predicate Matches(a: Nodes, l: Loc, b: Nodes, m: Loc) {
    (l in a <==> m in b) && (l in a ==> a[l] == b[m])
  }

  /** What is found at and below a location is exactly the given tree. */
  ghost predicate HoldsTree(nodes: Nodes, at: Loc, t: Tree) {
    forall l | at <= l :: Matches(nodes, l, Placed(at, t), l)
  }

  /** Of a folder's entries those with the given names are exactly the given ones. */
  ghost predicate HoldsForest(nodes: Nodes, at: Loc, names: set<string>, f: Forest) {
    && Names(f) == names
    && forall l | at < l && l[|at|] in names :: Matches(nodes, l, PlacedForest(at, f), l)
  }

  // ---- The walk ----

  class TarWriter {
    var headers: seq<Header>

    constructor ()
      ensures headers == []
    {
      headers := [];
    }

    method WriteHeader(h: Header)
      modifies this
      ensures headers == old(headers) + [h]
    {
      headers := headers + [h];
    }
  }

  /** The names of a folder's entries. */
  function Entries(nodes: Nodes, l: Loc): set<string> {
    set m | m in nodes && |m| == |l| + 1 && l <= m :: m[|l|]
  }

  ghost function Under(nodes: Nodes, l: Loc): set<Loc> {
    set m | m in nodes && l <= m
  }

  /** A path the walk has reached: the root with plain names appended, in words and on disk. */
  ghost predicate Reached(cwd: string, root: string, at: Loc, path: string) {
    && AllPlain(at) && Parse(path) == Path(Parse(root).rooted, Parse(root).comps + at)
    && Locate(cwd, path) == Locate(cwd, root) + at
  }

  /** Archives what stands at the root, and says what tree that is. */
  method TarDirectory(fs: FileSystem, root: string, prefix: string, tw: TarWriter) returns (ok: bool, ghost tree: Tree)
    requires fs.Valid()
    modifies tw
    ensures ok <==> fs.At(root) in fs.nodes
    ensures !ok ==> tw.headers == old(tw.headers)
    ensures ok ==>
              && WellNamed(tree) && HoldsTree(fs.nodes, fs.At(root), tree)
              && tw.headers == old(tw.headers) + Listing(prefix, [], tree)
  {
    hide Parse, Locate;
    if fs.At(root) !in fs.nodes {
      return false, Leaf([]);
    }
    assert Parse(root).comps + [] == Parse(root).comps && fs.At(root) + [] == fs.At(root);
    tree := Walk(fs, root, prefix, [], root, tw);
    return true, tree;
  }

  /** `filepath.Walk` with the callback of `tarDirectory` inlined: each folder before its entries. */
  method Walk(fs: FileSystem, root: string, prefix: string, ghost at: Loc, path: string, tw: TarWriter)
    returns (ghost tree: Tree)
    requires fs.Valid() && Reached(fs.cwd, root, at, path) && fs.At(path) in fs.nodes
    modifies tw
    ensures WellNamed(tree) && HoldsTree(fs.nodes, fs.At(path), tree)
    ensures tw.headers == old(tw.headers) + Listing(prefix, at, tree)
    decreases Under(fs.nodes, fs.At(path)), 1
  {
    hide Reached, RelPath, JoinPath, Rel, Parse, Locate, HoldsTree, HoldsForest, Rooted, PlainNames, ListingForest;
    ReachedRel(fs.cwd, root, at, path);
    var rel := Rel(root, path);
    var name := JoinPath(prefix, rel.value);
    match fs.nodes[fs.At(path)] {
      case File(data) =>
        tw.WriteHeader(Header(name, Regular, "", data));
        tree := Leaf(data);
        LeafHolds(fs.nodes, fs.At(path), tree);
      case Link(target) =>
        tw.WriteHeader(Header(name, SymLinkEntry, target, []));
        tree := Symlink(target);
        LeafHolds(fs.nodes, fs.At(path), tree);
      case Folder =>
        tw.WriteHeader(Header(name, Directory, "", []));
        ghost var kids := WalkEntries(fs, root, prefix, at, path, Entries(fs.nodes, fs.At(path)), tw);
        tree := Branch(kids);
        BranchHolds(fs.nodes, fs.At(path), kids);
    }
  }

  method WalkEntries(
    fs: FileSystem, root: string, prefix: string, ghost at: Loc, path: string, names: set<string>, tw: TarWriter)
    returns (ghost kids: Forest)
    requires fs.Valid() && Reached(fs.cwd, root, at, path) && fs.At(path) in fs.nodes
    requires names <= Entries(fs.nodes, fs.At(path))
    modifies tw
    ensures WellNamedForest(kids) && HoldsForest(fs.nodes, fs.At(path), names, kids)
    ensures tw.headers == old(tw.headers) + ListingForest(prefix, at, kids)
    decreases Under(fs.nodes, fs.At(path)), 0, names
  {
    hide Reached, RelPath, JoinPath, Rel, Parse, Locate, HoldsTree, HoldsForest, Rooted, PlainNames, Listing;
    if names == {} {
      kids := Nil;
      NoEntries(fs.nodes, fs.At(path));
      return;
    }
    var name :| name in names;
    ReachedEntry(fs.nodes, fs.cwd, root, at, path, name);
    ghost var tree := Walk(fs, root, prefix, at + [name], JoinPath(path, name), tw);
    ghost var rest := WalkEntries(fs, root, prefix, at, path, names - {name}, tw);
    kids := More(name, tree, rest);
    EntryHolds(fs.nodes, fs.At(path), name, tree, names - {name}, rest);
    assert names - {name} + {name} == names;
    NamesOf(fs.nodes, fs.At(path), names - {name}, rest);
  }

  lemma NamesOf(nodes: Nodes, at: Loc, names: set<string>, f: Forest)
    requires HoldsForest(nodes, at, names, f)
    ensures Names(f) == names
  {
  }

  /** Nothing lies below what is not a folder. */
  lemma LeafHolds(nodes: Nodes, at: Loc, t: Tree)
    requires Rooted(nodes) && at in nodes && !t.Branch? && nodes[at] == Placed(at, t)[at]
    ensures HoldsTree(nodes, at, t)
  {
    forall l | at <= l ensures Matches(nodes, l, Placed(at, t), l) {
      if l in nodes && l != at {
        AboveIsFolder(nodes, l, at);
      }
    }
  }

  /** A folder with all its entries. */
  lemma BranchHolds(nodes: Nodes, at: Loc, kids: Forest)
    requires Rooted(nodes) && IsFolder(nodes, at) && HoldsForest(nodes, at, Entries(nodes, at), kids)
    ensures HoldsTree(nodes, at, Branch(kids))
  {
    hide PlacedForest, Entries;
    PlacedForestBelow(at, kids);
    forall l | at <= l ensures Matches(nodes, l, Placed(at, Branch(kids)), l) {
      if l != at {
        if l in nodes {
          EntryAbove(nodes, at, l);
        }
        if l[|at|] in Entries(nodes, at) {
          assert Matches(nodes, l, PlacedForest(at, kids), l);
        }
      }
    }
  }

  /** What lies below a folder lies at or below an entry of it. */
  lemma EntryAbove(nodes: Nodes, at: Loc, l: Loc)
    requires Rooted(nodes) && l in nodes && at < l
    ensures l[|at|] in Entries(nodes, at)
  {
    var m := l[..|at| + 1];
    if |m| < |l| {
      AboveIsFolder(nodes, l, m);
    } else {
      assert m == l;
    }
    assert m in nodes && at <= m && m[|at|] == l[|at|];
  }

  lemma NoEntries(nodes: Nodes, at: Loc)
    ensures HoldsForest(nodes, at, {}, Nil)
  {
  }

  lemma EntryHolds(nodes: Nodes, at: Loc, name: string, tree: Tree, names: set<string>, rest: Forest)
    requires HoldsTree(nodes, at + [name], tree) && HoldsForest(nodes, at, names, rest) && name !in names
    ensures HoldsForest(nodes, at, names + {name}, More(name, tree, rest))
  {
    PlacedBelow(at + [name], tree);
    PlacedForestBelow(at, rest);
    var all := PlacedForest(at, More(name, tree, rest));
    forall l | at < l && l[|at|] in names + {name} ensures Matches(nodes, l, all, l) {
      if l[|at|] == name {
        assert at + [name] <= l;
        assert Matches(nodes, l, Placed(at + [name], tree), l);
      } else {
        assert Matches(nodes, l, PlacedForest(at, rest), l);
        assert !(at + [name] <= l);
      }
    }
  }

  lemma ReachedRel(cwd: string, root: string, at: Loc, path: string)
    requires Reached(cwd, root, at, path)
    ensures Rel(root, path) == Some(RelPath(at))
  {
    RelPlain(root, path, at);
  }

  lemma ReachedEntry(nodes: Nodes, cwd: string, root: string, at: Loc, path: string, name: string)
    requires Reached(cwd, root, at, path) && PlainNames(nodes) && name in Entries(nodes, Locate(cwd, path))
    ensures Plain(name) && Reached(cwd, root, at + [name], JoinPath(path, name))
    ensures Locate(cwd, JoinPath(path, name)) == Locate(cwd, path) + [name]
    ensures Locate(cwd, JoinPath(path, name)) in nodes
    ensures Locate(cwd, path) in nodes ==>
              Under(nodes, Locate(cwd, JoinPath(path, name))) < Under(nodes, Locate(cwd, path))
  {
    hide Parse, Locate, JoinPath, Show;
    var l := Locate(cwd, path);
    var m :| m in nodes && |m| == |l| + 1 && l <= m && m[|l|] == name;
    assert m == l + [name] && name in m;
    assert AllPlain([name]);
    NameShown(name);
    JoinPlain(path, [name]);
    LocateJoin(cwd, path, [name]);
    assert Parse(root).comps + at + [name] == Parse(root).comps + (at + [name]);
    assert Locate(cwd, root) + at + [name] == Locate(cwd, root) + (at + [name]);
    assert l !in Under(nodes, m);
  }

  // ---- Round trip ----

  /** Nothing lies at or below a location. */
  ghost predicate Vacant(nodes: Nodes, l: Loc) {
    forall m | m in nodes :: !(l <= m)
  }

  ghost predicate VacantKids(nodes: Nodes, l: Loc, f: Forest) {
    forall name | name in Names(f) :: Vacant(nodes, l + [name])
  }

  /** A header of the listing passes every check, and goes to its own place. */
  lemma ListedPlace(nodes: Nodes, cwd: string, dir: string, prefix: string, at: Loc)
    requires IsAbs(cwd) && Rooted(nodes) && AllPlain(at)
    requires at != [] ==> IsFolder(nodes, Locate(cwd, dir) + Parent(at))
    ensures CheckPath(nodes, cwd, dir, prefix, JoinPath(prefix, RelPath(at))) == Some(RelPath(at))
    ensures Locate(cwd, JoinPath(dir, RelPath(at))) == Locate(cwd, dir) + at
  {
    hide Locate, JoinPath, Rel, Parse, RelPath, Clear;
    var name := JoinPath(prefix, RelPath(at));
    JoinPlain(prefix, at);
    RelPlain(prefix, name, at);
    ParseRelPath(at);
    LocateJoin(cwd, dir, at);
    ClearInFolder(nodes, Locate(cwd, dir), at);
  }

  /** Everything above an existing folder is a folder, so the walk meets no link. */
  lemma ClearInFolder(nodes: Nodes, base: Loc, at: Loc)
    requires Rooted(nodes) && (at != [] ==> IsFolder(nodes, base + Parent(at)))
    ensures Clear(nodes, base, at)
  {
    if at == [] {
      return;
    }
    var above := base + Parent(at);
    forall k | 0 < k < |at| ensures PassesAt(nodes, base, at, k) {
      assert above[..|base| + k] == base + at[..k];
      assert above[..|above|] == above;
      if k < |at| - 1 {
        RootedAbove(nodes, above, |base| + k);
      }
    }
  }

  lemma ExtractConcat(nodes: Nodes, cwd: string, dir: string, prefix: string, a: seq<Header>, b: seq<Header>)
    ensures
      var e := Extract(nodes, cwd, dir, prefix, a);
      Extract(nodes, cwd, dir, prefix, a + b) == if e.ok then Extract(e.nodes, cwd, dir, prefix, b) else e
    decreases |a|
  {
    hide ExtractOne;
    if a == [] {
      assert a + b == b;
    } else {
      assert (a + b)[0] == a[0] && (a + b)[1..] == a[1..] + b;
      match ExtractOne(nodes, cwd, dir, prefix, a[0])
      case None =>
      case Some(n) => ExtractConcat(n, cwd, dir, prefix, a[1..], b);
    }
  }

  lemma ExtractHeader(nodes: Nodes, cwd: string, dir: string, prefix: string, h: Header)
    requires ExtractOne(nodes, cwd, dir, prefix, h).Some?
    ensures Extract(nodes, cwd, dir, prefix, [h])
         == Extracted(ExtractOne(nodes, cwd, dir, prefix, h).value, true)
  {
    hide ExtractOne;
    assert [h][1..] == [];
  }

  /** A new node, at plain names below the target, in a folder that is already there. */
  lemma ExtractNew(nodes: Nodes, cwd: string, dir: string, prefix: string, at: Loc, h: Header, node: Node)
    requires IsAbs(cwd) && Rooted(nodes) && AllPlain(at) && at != []
    requires IsFolder(nodes, Locate(cwd, dir) + Parent(at)) && Vacant(nodes, Locate(cwd, dir) + at)
    requires h.name == JoinPath(prefix, RelPath(at))
    requires (h.kind == Regular && node == File(h.data)) || (h.kind == Directory && node == Folder)
    ensures
      var after := nodes + map[Locate(cwd, dir) + at := node];
      Extract(nodes, cwd, dir, prefix, [h]) == Extracted(after, true) && Rooted(after)
  {
    hide Locate, JoinPath, Rel, Parse, RelPath, Clear;
    ListedPlace(nodes, cwd, dir, prefix, at);
    var l := Locate(cwd, dir) + at;
    assert Parent(l) == Locate(cwd, dir) + Parent(at);
    assert l !in nodes;
    assert nodes[l := node] == nodes + map[l := node];
    assert MkdirAll(nodes, Parent(l)) == Ok(nodes);
    assert ExtractOne(nodes, cwd, dir, prefix, h) == Some(nodes[l := node]);
    ExtractHeader(nodes, cwd, dir, prefix, h);
  }

  /** Extracting a subtree's listing adds exactly the subtree. */
  lemma {:induction false} ExtractTree(nodes: Nodes, cwd: string, dir: string, prefix: string, at: Loc, t: Tree)
    requires IsAbs(cwd) && Rooted(nodes) && AllPlain(at) && at != [] && WellNamed(t) && LinkFree(t)
    requires IsFolder(nodes, Locate(cwd, dir) + Parent(at)) && Vacant(nodes, Locate(cwd, dir) + at)
    ensures
      var after := nodes + Placed(Locate(cwd, dir) + at, t);
      Extract(nodes, cwd, dir, prefix, Listing(prefix, at, t)) == Extracted(after, true) && Rooted(after)
    decreases t
  {
    hide Locate, JoinPath, RelPath, Extract;
    var l := Locate(cwd, dir) + at;
    var name := JoinPath(prefix, RelPath(at));
    match t
    case Leaf(data) =>
      ExtractNew(nodes, cwd, dir, prefix, at, Header(name, Regular, "", data), File(data));
    case Branch(kids) =>
      var h := Header(name, Directory, "", []);
      var n := nodes + map[l := Folder];
      ExtractNew(nodes, cwd, dir, prefix, at, h, Folder);
      ExtractConcat(nodes, cwd, dir, prefix, [h], ListingForest(prefix, at, kids));
      ExtractForest(n, cwd, dir, prefix, at, kids);
      AddAdd(nodes, map[l := Folder], PlacedForest(l, kids));
  }

  lemma {:induction false} ExtractForest(nodes: Nodes, cwd: string, dir: string, prefix: string, at: Loc, f: Forest)
    requires IsAbs(cwd) && Rooted(nodes) && AllPlain(at) && WellNamedForest(f) && LinkFreeForest(f)
    requires IsFolder(nodes, Locate(cwd, dir) + at) && VacantKids(nodes, Locate(cwd, dir) + at, f)
    ensures
      var after := nodes + PlacedForest(Locate(cwd, dir) + at, f);
      Extract(nodes, cwd, dir, prefix, ListingForest(prefix, at, f)) == Extracted(after, true) && Rooted(after)
    decreases f
  {
    hide Locate, Listing;
    var l := Locate(cwd, dir) + at;
    match f
    case Nil =>
      assert nodes + map[] == nodes;
    case More(name, tree, rest) =>
      hide Extract;
      var kid := at + [name];
      assert Parent(kid) == at && AllPlain(kid);
      assert Locate(cwd, dir) + kid == l + [name];
      assert name in Names(f);
      ExtractTree(nodes, cwd, dir, prefix, kid, tree);
      var n := nodes + Placed(l + [name], tree);
      KidPlaced(nodes, l, name, tree, rest);
      ExtractConcat(nodes, cwd, dir, prefix, Listing(prefix, kid, tree), ListingForest(prefix, at, rest));
      ExtractForest(n, cwd, dir, prefix, at, rest);
      AddAdd(nodes, Placed(l + [name], tree), PlacedForest(l, rest));
  }

  lemma AddAdd(a: Nodes, b: Nodes, c: Nodes)
    ensures (a + b) + c == a + (b + c)
  {
  }

  /** Placing one entry leaves its folder, and the places of its siblings, as they were. */
  lemma KidPlaced(nodes: Nodes, l: Loc, name: string, tree: Tree, rest: Forest)
    requires IsFolder(nodes, l) && name !in Names(rest) && VacantKids(nodes, l, rest)
    ensures
      var after := nodes + Placed(l + [name], tree);
      IsFolder(after, l) && VacantKids(after, l, rest)
  {
    PlacedBelow(l + [name], tree);
    var after := nodes + Placed(l + [name], tree);
    forall other, m | other in Names(rest) && m in after ensures !(l + [other] <= m) {
      if m in Placed(l + [name], tree) {
        assert m[|l|] == name;
      } else {
        assert Vacant(nodes, l + [other]);
      }
    }
  }

  /** The first header of a listing is the target directory itself, which is already there. */
  lemma ExtractRoot(nodes: Nodes, cwd: string, dir: string, prefix: string)
    requires IsAbs(cwd) && Rooted(nodes) && IsFolder(nodes, Locate(cwd, dir))
    ensures
      var h := Header(JoinPath(prefix, RelPath([])), Directory, "", []);
      Extract(nodes, cwd, dir, prefix, [h]) == Extracted(nodes, true)
  {
    hide Locate, JoinPath, Rel, Parse, RelPath, Clear;
    var h := Header(JoinPath(prefix, RelPath([])), Directory, "", []);
    var base := Locate(cwd, dir);
    assert base + [] == base;
    ListedPlace(nodes, cwd, dir, prefix, []);
    ExtractHeader(nodes, cwd, dir, prefix, h);
  }

  /** The target holds nothing but itself. */
  ghost predicate EmptyFolder(nodes: Nodes, base: Loc) {
    IsFolder(nodes, base) && forall m | m in nodes && base <= m :: m == base
  }

  /** Archiving a directory and extracting the archive under the same prefix, into any empty directory,
      rebuilds exactly the tree and changes nothing else. */
  lemma ArchiveRoundTrip(nodes: Nodes, cwd: string, dir: string, prefix: string, kids: Forest)
    requires IsAbs(cwd) && Rooted(nodes) && EmptyFolder(nodes, Locate(cwd, dir))
    requires WellNamedForest(kids) && LinkFreeForest(kids)
    ensures Extract(nodes, cwd, dir, prefix, Listing(prefix, [], Branch(kids)))
         == Extracted(nodes + Placed(Locate(cwd, dir), Branch(kids)), true)
  {
    hide Locate, Extract, JoinPath, RelPath, ListingForest, PlacedForest;
    var base := Locate(cwd, dir);
    var h := Header(JoinPath(prefix, RelPath([])), Directory, "", []);
    assert base + [] == base;
    ExtractRoot(nodes, cwd, dir, prefix);
    EmptyIsVacant(nodes, base, kids);
    ExtractForest(nodes, cwd, dir, prefix, [], kids);
    ExtractConcat(nodes, cwd, dir, prefix, [h], ListingForest(prefix, [], kids));
    AddAdd(nodes, map[base := Folder], PlacedForest(base, kids));
    assert nodes + map[base := Folder] == nodes;
  }

  lemma EmptyIsVacant(nodes: Nodes, base: Loc, f: Forest)
    requires EmptyFolder(nodes, base)
    ensures VacantKids(nodes, base, f)
  {
  }

  /** A tree with a link has a link entry in its listing. */
  lemma {:induction false} LinkListed(prefix: string, at: Loc, t: Tree)
    ensures !LinkFree(t) ==> exists h :: h in Listing(prefix, at, t) && h.kind == SymLinkEntry
    decreases t
  {
    match t
    case Leaf(_) =>
    case Symlink(_) =>
      assert Listing(prefix, at, t)[0].kind == SymLinkEntry;
    case Branch(kids) =>
      LinkListedForest(prefix, at, kids);
  }

  lemma {:induction false} LinkListedForest(prefix: string, at: Loc, f: Forest)
    ensures !LinkFreeForest(f) ==> exists h :: h in ListingForest(prefix, at, f) && h.kind == SymLinkEntry
    decreases f
  {
    if f.More? {
      LinkListed(prefix, at + [f.name], f.tree);
      LinkListedForest(prefix, at, f.rest);
    }
  }

  /** To an absolute directory and under a relative prefix, the archive of a tree can be extracted exactly
      when the tree holds no link; then the tree is rebuilt. */
  lemma RoundTripExactly(nodes: Nodes, cwd: string, dir: string, prefix: string, kids: Forest)
    requires IsAbs(cwd) && Rooted(nodes) && EmptyFolder(nodes, Locate(cwd, dir))
    requires WellNamedForest(kids) && IsAbs(dir) && !IsAbs(prefix)
    ensures
      var e := Extract(nodes, cwd, dir, prefix, Listing(prefix, [], Branch(kids)));
      && (e.ok <==> LinkFreeForest(kids))
      && (e.ok ==> e.nodes == nodes + Placed(Locate(cwd, dir), Branch(kids)))
  {
    hide Locate, Extract, Listing, Placed, EmptyFolder;
    var hs := Listing(prefix, [], Branch(kids));
    if LinkFreeForest(kids) {
      ArchiveRoundTrip(nodes, cwd, dir, prefix, kids);
    } else {
      LinkListed(prefix, [], Branch(kids));
      ExtractMakesNoLinks(nodes, cwd, dir, prefix, hs);
    }
  }
}
