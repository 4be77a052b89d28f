/** What the entries of an archive say and do: each header against the node it was made from, and each node
    against the entries extracted over it. */
module EntryLaws {
  import opened GoStrings
  import opened Paths
  import opened Disk
  import opened Archive
  import opened RoundTrip

  // ---- One entry ----

  /** The place of a header's entry: below the directory, at what its name has after the prefix. */
  function EntryPlace(cwd: string, dir: string, prefix: string, name: string): Loc {
    var b, t := Parse(prefix), Parse(name);
    Locate(cwd, dir) + if Inside(b.comps, t.comps) then t.comps[|b.comps|..] else []
  }

  /** A name is accepted when it lies under the prefix and meets no link on its way. */
  ghost predicate NameAccepted(nodes: Nodes, cwd: string, dir: string, prefix: string, name: string) {
    var b, t := Parse(prefix), Parse(name);
    && b.rooted == t.rooted && Inside(b.comps, t.comps)
    && Clear(nodes, Locate(cwd, dir), t.comps[|b.comps|..])
  }

  /** Something can be put at a location: a new node in an existing folder. */
  predicate Room(nodes: Nodes, at: Loc) {
    at !in nodes && at != [] && IsFolder(nodes, Parent(at))
  }

  lemma PlaceOf(nodes: Nodes, cwd: string, dir: string, prefix: string, name: string)
    requires IsAbs(cwd)
    ensures
      var r := CheckPath(nodes, cwd, dir, prefix, name);
      && (r.Some? <==> NameAccepted(nodes, cwd, dir, prefix, name))
      && (r.Some? ==> Locate(cwd, JoinPath(dir, r.value)) == EntryPlace(cwd, dir, prefix, name))
  {
    hide Locate, Parse, Clear, JoinPath, Rel, RelPath, ClimbsOut;
    var r := CheckPath(nodes, cwd, dir, prefix, name);
    CheckPathExactly(nodes, cwd, dir, prefix, name);
    if r.Some? {
      HeaderPlace(cwd, dir, prefix, name);
      CheckedPath(prefix, name);
      RestPlain(prefix, name);
      ParseRelPath(Parse(name).comps[|Parse(prefix).comps|..]);
    }
  }

  /** The names after an accepted prefix are plain. */
  lemma RestPlain(prefix: string, name: string)
    requires Inside(Parse(prefix).comps, Parse(name).comps)
    ensures AllPlain(Parse(name).comps[|Parse(prefix).comps|..])
  {
    hide Parse;
    var n, t := |Parse(prefix).comps|, Parse(name);
    ParseNormal(name);
    NormalParts(t, n);
    forall c | c in t.comps[n..] ensures Plain(c) {
      assert t.comps[n] != "..";
    }
  }

  /** What each kind of entry does where it is accepted, and when it fails: a regular file replaces what a file
      holds, a link or a hard link needs a free place, and other kinds are skipped. */
  lemma EntryExactly(nodes: Nodes, cwd: string, dir: string, prefix: string, h: Header)
    requires IsAbs(cwd) && Rooted(nodes)
    ensures
      var at := EntryPlace(cwd, dir, prefix, h.name);
      var r := ExtractOne(nodes, cwd, dir, prefix, h);
      if !NameAccepted(nodes, cwd, dir, prefix, h.name) then r == None
      else
        match h.kind
        case Regular =>
          if at in nodes && nodes[at].Link? then r == Some(nodes)
          else if (at in nodes && nodes[at].File?) || Room(nodes, at) then r == Some(nodes[at := File(h.data)])
          else r == None
        case Directory =>
          && (r.Some? <==> forall k | 0 <= k <= |at| && at[..k] in nodes :: nodes[at[..k]] == Folder)
          && (r.Some? ==>
                && IsFolder(r.value, at) && (forall l | l in nodes :: l in r.value && r.value[l] == nodes[l])
                && (forall l | l in r.value && l !in nodes :: l <= at && r.value[l] == Folder))
        case HardLinkEntry =>
          var from, path := Locate(cwd, h.link), JoinPath(dir, RelPath(at[|Locate(cwd, dir)|..]));
          if && CheckLink(nodes, cwd, dir, prefix, path, h.link) && Room(nodes, at)
             && from in nodes && nodes[from] != Folder
          then r == Some(nodes[at := nodes[from]])
          else r == None
        case SymLinkEntry =>
          var path := JoinPath(dir, RelPath(at[|Locate(cwd, dir)|..]));
          if CheckLink(nodes, cwd, dir, prefix, path, h.link) && Room(nodes, at)
          then r == Some(nodes[at := Link(h.link)])
          else r == None
        case Special => r == Some(nodes)
  {
    hide Locate, Parse, Clear, JoinPath, Rel, RelPath, CheckLink, CheckPath, MkdirAll, NameAccepted;
    var at := EntryPlace(cwd, dir, prefix, h.name);
    PlaceOf(nodes, cwd, dir, prefix, h.name);
    if NameAccepted(nodes, cwd, dir, prefix, h.name) {
      CheckPathExactly(nodes, cwd, dir, prefix, h.name);
      AcceptedRest(nodes, cwd, dir, prefix, h.name);
      if h.kind.Directory? {
        MkdirAllSucceeds(nodes, at);
        if MkdirAll(nodes, at).Ok? {
          MkdirAllAdds(nodes, at);
        }
      }
    }
  }

  lemma AcceptedRest(nodes: Nodes, cwd: string, dir: string, prefix: string, name: string)
    requires NameAccepted(nodes, cwd, dir, prefix, name)
    ensures EntryPlace(cwd, dir, prefix, name)[|Locate(cwd, dir)|..] == Parse(name).comps[|Parse(prefix).comps|..]
    ensures Inside(Parse(prefix).comps, Parse(name).comps)
  {
    hide Locate, Parse, Clear;
  }

  // ---- A whole archive ----

  /** An entry leaves every node as it is but a file at its own place, and that only if it is a regular one. */
  lemma EntryKeeps(nodes: Nodes, cwd: string, dir: string, prefix: string, h: Header, l: Loc)
    requires IsAbs(cwd) && Rooted(nodes) && l in nodes && ExtractOne(nodes, cwd, dir, prefix, h).Some?
    requires nodes[l].File? ==> h.kind != Regular || EntryPlace(cwd, dir, prefix, h.name) != l
    ensures
      var after := ExtractOne(nodes, cwd, dir, prefix, h).value;
      l in after && after[l] == nodes[l]
  {
    hide Locate, Parse, ExtractOne, CheckLink, NameAccepted, EntryPlace, RelPath, JoinPath, Rooted;
    EntryExactly(nodes, cwd, dir, prefix, h);
  }

  /** So does an archive, also one that fails on the way: nothing is removed, folders and links stay, and so does
      every file that is no regular entry's place. */
  lemma {:induction false} ExtractKeeps(nodes: Nodes, cwd: string, dir: string, prefix: string, hs: seq<Header>, l: Loc)
    requires IsAbs(cwd) && Rooted(nodes) && l in nodes
    requires nodes[l].File? ==>
               forall h | h in hs && h.kind == Regular :: EntryPlace(cwd, dir, prefix, h.name) != l
    ensures
      var after := Extract(nodes, cwd, dir, prefix, hs).nodes;
      l in after && after[l] == nodes[l]
    decreases |hs|
  {
    hide ExtractOne, EntryPlace, Rooted;
    if hs != [] && ExtractOne(nodes, cwd, dir, prefix, hs[0]).Some? {
      assert hs[0] in hs && forall h | h in hs[1..] :: h in hs;
      EntryKeeps(nodes, cwd, dir, prefix, hs[0], l);
      ExtractOneRooted(nodes, cwd, dir, prefix, hs[0]);
      ExtractKeeps(ExtractOne(nodes, cwd, dir, prefix, hs[0]).value, cwd, dir, prefix, hs[1..], l);
    }
  }

  lemma ExtractOneRooted(nodes: Nodes, cwd: string, dir: string, prefix: string, h: Header)
    requires IsAbs(cwd) && Rooted(nodes) && ExtractOne(nodes, cwd, dir, prefix, h).Some?
    ensures Rooted(ExtractOne(nodes, cwd, dir, prefix, h).value)
  {
    hide Locate, JoinPath, Rel, Parse, Clear, CheckLink;
    if h.kind.Directory? {
      var rel := CheckPath(nodes, cwd, dir, prefix, h.name).value;
      MkdirAllRooted(nodes, Locate(cwd, JoinPath(dir, rel)));
    }
  }

  /** Whatever stood there before, after a successful extraction each file that an entry wrote holds the data of
      the last regular entry for its place, unless a link stands there. */
  lemma {:induction false} LastEntryWins(
    nodes: Nodes, cwd: string, dir: string, prefix: string, hs: seq<Header>, k: nat)
    requires IsAbs(cwd) && Rooted(nodes) && Extract(nodes, cwd, dir, prefix, hs).ok
    requires k < |hs| && hs[k].kind == Regular
    requires forall j | k < j < |hs| && hs[j].kind == Regular ::
               EntryPlace(cwd, dir, prefix, hs[j].name) != EntryPlace(cwd, dir, prefix, hs[k].name)
    ensures
      var at, after := EntryPlace(cwd, dir, prefix, hs[k].name), Extract(nodes, cwd, dir, prefix, hs).nodes;
      at in after && (after[at] == File(hs[k].data) || after[at].Link?)
    decreases |hs|
  {
    hide ExtractOne, EntryPlace, Rooted, NameAccepted;
    var next := ExtractOne(nodes, cwd, dir, prefix, hs[0]).value;
    ExtractOneRooted(nodes, cwd, dir, prefix, hs[0]);
    if k > 0 {
      assert hs[1..][k - 1] == hs[k];
      LastEntryWins(next, cwd, dir, prefix, hs[1..], k - 1);
    } else {
      EntryExactly(nodes, cwd, dir, prefix, hs[0]);
      ExtractKeeps(next, cwd, dir, prefix, hs[1..], EntryPlace(cwd, dir, prefix, hs[0].name));
    }
  }

  // ---- What headers say ----

  /** The header of a node found at the given names below the root. */
  function HeaderOf(prefix: string, rest: Loc, node: Node): Header {
    var name := JoinPath(prefix, RelPath(rest));
    match node
    case File(data) => Header(name, Regular, "", data)
    case Link(target) => Header(name, SymLinkEntry, target, [])
    case Folder => Header(name, Directory, "", [])
  }

  /** The places of a tree in the order in which the walk comes to them. */
  function Visits(at: Loc, t: Tree): seq<Loc>
    decreases t
  {
    [at] + if t.Branch? then VisitsForest(at, t.kids) else []
  }

  function VisitsForest(at: Loc, f: Forest): seq<Loc>
    decreases f
  {
    match f
    case Nil => []
    case More(name, tree, rest) => Visits(at + [name], tree) + VisitsForest(at, rest)
  }

  /** Each header tells the node at its place, and each place is visited once. */
  ghost predicate Tells(prefix: string, root: Loc, nodes: Nodes, headers: seq<Header>, visits: seq<Loc>) {
    && |headers| == |visits|
    && (forall k | 0 <= k < |visits| ::
          root + visits[k] in nodes && headers[k] == HeaderOf(prefix, visits[k], nodes[root + visits[k]]))
    && (forall l | l in nodes :: exists k :: 0 <= k < |visits| && l == root + visits[k])
    && (forall j, k | 0 <= j < k < |visits| :: visits[j] != visits[k])
  }

  lemma TellsConcat(
    prefix: string, root: Loc, a: Nodes, ha: seq<Header>, va: seq<Loc>, b: Nodes, hb: seq<Header>, vb: seq<Loc>)
    requires Tells(prefix, root, a, ha, va) && Tells(prefix, root, b, hb, vb) && a.Keys !! b.Keys
    ensures Tells(prefix, root, a + b, ha + hb, va + vb)
  {
    hide HeaderOf;
    var nodes, headers, visits := a + b, ha + hb, va + vb;
    forall k | 0 <= k < |visits|
      ensures root + visits[k] in nodes && headers[k] == HeaderOf(prefix, visits[k], nodes[root + visits[k]])
    {
      if k >= |va| {
        assert visits[k] == vb[k - |va|];
        assert root + vb[k - |va|] in b;
      }
    }
    forall l | l in nodes ensures exists k :: 0 <= k < |visits| && l == root + visits[k] {
      if l in b {
        var k :| 0 <= k < |vb| && l == root + vb[k];
        assert visits[|va| + k] == vb[k];
      } else {
        var k :| 0 <= k < |va| && l == root + va[k];
        assert visits[k] == va[k];
      }
    }
    forall j, k | 0 <= j < k < |visits| ensures visits[j] != visits[k] {
      if j < |va| <= k {
        assert root + va[j] in a && root + vb[k - |va|] in b;
      }
    }
  }

  lemma TellsOne(prefix: string, root: Loc, at: Loc, node: Node)
    ensures Tells(prefix, root, map[root + at := node], [HeaderOf(prefix, at, node)], [at])
  {
    hide HeaderOf;
    assert [at][0] == at;
  }

  /** The listing of a tree tells each of its nodes once: names, kinds, contents and where links lead. */
  lemma {:induction false} ListingTells(prefix: string, root: Loc, at: Loc, t: Tree)
    requires WellNamed(t)
    ensures Tells(prefix, root, Placed(root + at, t), Listing(prefix, at, t), Visits(at, t))
    decreases t
  {
    hide JoinPath, RelPath;
    if t.Branch? {
      ListingForestTells(prefix, root, at, t.kids);
      PlacedForestBelow(root + at, t.kids);
      TellsOne(prefix, root, at, Folder);
      TellsConcat(
        prefix, root, map[root + at := Folder], [HeaderOf(prefix, at, Folder)], [at],
        PlacedForest(root + at, t.kids), ListingForest(prefix, at, t.kids), VisitsForest(at, t.kids));
    } else {
      TellsOne(prefix, root, at, if t.Leaf? then File(t.data) else Link(t.target));
    }
  }

  lemma {:induction false} ListingForestTells(prefix: string, root: Loc, at: Loc, f: Forest)
    requires WellNamedForest(f)
    ensures Tells(prefix, root, PlacedForest(root + at, f), ListingForest(prefix, at, f), VisitsForest(at, f))
    decreases f
  {
    hide Tells, JoinPath, RelPath;
    if f.More? {
      var below := at + [f.name];
      assert root + at + [f.name] == root + below;
      ListingTells(prefix, root, below, f.tree);
      ListingForestTells(prefix, root, at, f.rest);
      PlacedBelow(root + below, f.tree);
      PlacedForestBelow(root + at, f.rest);
      forall l | l in Placed(root + below, f.tree) ensures l !in PlacedForest(root + at, f.rest) {
        assert root + below <= l && (root + below)[|root + at|] == f.name;
      }
      TellsConcat(
        prefix, root, Placed(root + below, f.tree), Listing(prefix, below, f.tree), Visits(below, f.tree),
        PlacedForest(root + at, f.rest), ListingForest(prefix, at, f.rest), VisitsForest(at, f.rest));
    } else {
      NothingTold(prefix, root);
    }
  }

  lemma NothingTold(prefix: string, root: Loc)
    ensures Tells(prefix, root, map[], [], [])
  {
  }

  /** What the walk of a directory writes: one header for each node it finds at or below the root, with the node's
      name, kind, content and, for a link, where it leads. */
  lemma ArchiveTells(nodes: Nodes, root: Loc, prefix: string, tree: Tree, rest: Loc)
    requires WellNamed(tree) && HoldsTree(nodes, root, tree)
    ensures
      var headers := Listing(prefix, [], tree);
      && |headers| == |Visits([], tree)|
      && (forall k | 0 <= k < |headers| ::
            var at := root + Visits([], tree)[k];
            at in nodes && headers[k] == HeaderOf(prefix, Visits([], tree)[k], nodes[at]))
      && (root + rest in nodes ==> HeaderOf(prefix, rest, nodes[root + rest]) in headers)
      && (forall j, k | 0 <= j < k < |headers| :: Visits([], tree)[j] != Visits([], tree)[k])
  {
    hide HeaderOf, Listing, Visits, Placed, WellNamed;
    ListingTells(prefix, root, [], tree);
    assert root + [] == root;
    var visits, placed := Visits([], tree), Placed(root, tree);
    forall k | 0 <= k < |visits|
      ensures
        var at := root + visits[k];
        at in nodes && nodes[at] == placed[at]
    {
      assert Matches(nodes, root + visits[k], placed, root + visits[k]);
    }
    if root + rest in nodes {
      assert Matches(nodes, root + rest, placed, root + rest);
      var k :| 0 <= k < |visits| && root + rest == root + visits[k];
      assert rest == (root + rest)[|root|..] == (root + visits[k])[|root|..] == visits[k];
    }
  }

  // ---- Extracting a directory over another ----

  lemma {:induction false} VisitsPlain(at: Loc, t: Tree)
    requires WellNamed(t) && AllPlain(at)
    ensures forall l | l in Visits(at, t) :: AllPlain(l)
    decreases t
  {
    if t.Branch? {
      VisitsForestPlain(at, t.kids);
    }
  }

  lemma {:induction false} VisitsForestPlain(at: Loc, f: Forest)
    requires WellNamedForest(f) && AllPlain(at)
    ensures forall l | l in VisitsForest(at, f) :: AllPlain(l)
    decreases f
  {
    hide Plain;
    if f.More? {
      VisitsPlain(at + [f.name], f.tree);
      VisitsForestPlain(at, f.rest);
    }
  }

  lemma HeaderPlaced(cwd: string, dir: string, prefix: string, rest: Loc)
    requires AllPlain(rest)
    ensures EntryPlace(cwd, dir, prefix, JoinPath(prefix, RelPath(rest))) == Locate(cwd, dir) + rest
  {
    hide Locate, Parse, JoinPath, RelPath;
    JoinPlain(prefix, rest);
    var comps := Parse(prefix).comps;
    assert (comps + rest)[|comps|..] == rest;
    if rest != [] {
      assert rest[0] in rest;
    }
  }

  /** The archive of a directory, extracted over whatever the target holds: when that succeeds every file of the
      directory is there with its own content, however long the file was that it replaced. */
  lemma ExtractOver(nodes: Nodes, cwd: string, dir: string, prefix: string, t: Tree, rest: Loc)
    requires IsAbs(cwd) && Rooted(nodes) && WellNamed(t) && Extract(nodes, cwd, dir, prefix, Listing(prefix, [], t)).ok
    requires rest in Placed([], t) && Placed([], t)[rest].File?
    ensures
      var at, after := Locate(cwd, dir) + rest, Extract(nodes, cwd, dir, prefix, Listing(prefix, [], t)).nodes;
      at in after && (after[at] == Placed([], t)[rest] || after[at].Link?)
  {
    hide Locate, Placed, Listing, Visits, Extract, JoinPath, RelPath, EntryPlace, WellNamed, Rooted;
    var headers, visits, placed := Listing(prefix, [], t), Visits([], t), Placed([], t);
    var none: Loc := [];
    assert none + none == none;
    ListingTells(prefix, [], [], t);
    VisitsPlain([], t);
    forall k | 0 <= k < |visits|
      ensures EntryPlace(cwd, dir, prefix, headers[k].name) == Locate(cwd, dir) + visits[k]
    {
      assert visits[k] in visits && [] + visits[k] == visits[k];
      HeaderPlaced(cwd, dir, prefix, visits[k]);
    }
    var k :| 0 <= k < |visits| && rest == [] + visits[k];
    assert [] + visits[k] == visits[k];
    forall j | k < j < |headers|
      ensures EntryPlace(cwd, dir, prefix, headers[j].name) != EntryPlace(cwd, dir, prefix, headers[k].name)
    {
      var base := Locate(cwd, dir);
      assert (base + visits[j])[|base|..] == visits[j] && (base + visits[k])[|base|..] == visits[k];
    }
    LastEntryWins(nodes, cwd, dir, prefix, headers, k);
  }
}
