/** A directory's way from one store to another: archived by the walk, fetched, pushed and unpacked. */
module DirectoryTravel {
  import opened GoStrings
  import opened Paths
  import opened Disk
  import opened Archive
  import opened RoundTrip
  import opened StoreSpec
  import opened PushEffects
  import opened StoreLaws

  // ---- Sending ----

  /** What writing a compressed archive promises: reading it gives the same headers, and its checksum holds. */
  ghost predicate EncodesBack(c: Config) {
    forall hs :: Encodes(c, hs)
  }

  ghost predicate Encodes(c: Config, hs: seq<Header>) {
    var gz := c.encode(hs);
    c.decode(gz.data) == Some(Stream(hs, false)) && c.sums(gz.data, gz.checksum)
  }

  /** What is fetched for an added directory is the archive of what the walk found there, and the item made
      describes it. */
  lemma AddedDirectory(c: Config, s: State, name: string, mediaType: string, path: string, t: Trouble, tree: Tree)
    requires IsFolder(s.nodes, AddedFrom(c, name, path))
    requires Add(c, s, name, mediaType, path, t, tree).result.Ok?
    ensures
      var added := Add(c, s, name, mediaType, path, t, tree);
      var i := added.result.value;
      var gz := c.encode(Listing(name, [], tree));
      && Fetch(c, added.state, i) == Ok(Source(gz.data, false))
      && i.name == name && i.unpack && i.size == |gz.data| && i.digest == c.sha(gz.data) && i.checksum == gz.checksum
      && i.parses && added.state.names == s.names + {name}
      && i.mediaType == if mediaType == "" then "application/vnd.oci.image.layer.v1.tar+gzip" else mediaType
  {
    hide Locate, AbsPath, Listing;
  }

  // ---- Receiving ----

  /** The tree once a push has made its target directory and saved the archive to its temporary file. */
  function Prepared(c: Config, nodes: Nodes, at: Loc, t: Trouble, data: Bytes): Nodes
    requires MkdirAll(nodes, at).Ok?
  {
    MkdirAll(nodes, at).value[At(c, t.temp) := File(data)]
  }

  /** With nothing failing, unpacking is making the directory, saving and extracting. */
  lemma CalmPushDir(c: Config, s: State, target: string, i: Item, data: Bytes, t: Trouble)
    requires Calm(t) && i.size == |data| && i.digest == c.sha(data) && c.sums(data, i.checksum)
    requires MkdirAll(s.nodes, At(c, target)).Ok?
    requires Create(MkdirAll(s.nodes, At(c, target)).value, At(c, t.temp), File([])).Ok?
    requires c.decode(data).Some? && !c.decode(data).value.torn
    ensures
      var nodes := Prepared(c, s.nodes, At(c, target), t, data);
      var e := Extract(nodes, c.cwd, target, i.name, c.decode(data).value.headers);
      var saved := PushDir(c, s, target, i, Source(data, false), t);
      saved.ok == e.ok && saved.state.nodes == e.nodes && saved.state.names == s.names
  {
    hide Locate, Extract, SaveFile, Create, MkdirAll;
    SavedTemp(c, s.(nodes := MkdirAll(s.nodes, At(c, target)).value), i, data, t);
  }

  lemma SavedTemp(c: Config, s: State, i: Item, data: Bytes, t: Trouble)
    requires Calm(t) && i.size == |data| && i.digest == c.sha(data) && Create(s.nodes, At(c, t.temp), File([])).Ok?
    ensures
      var temp := Create(s.nodes, At(c, t.temp), File([])).value;
      var saved := SaveFile(c, s.(nodes := temp, tmp := s.tmp + {t.temp}), t.temp, i, Source(data, false), t);
      saved.ok && saved.state.nodes == s.nodes[At(c, t.temp) := File(data)] && saved.state.names == s.names
  {
    hide Locate;
    var temp := Create(s.nodes, At(c, t.temp), File([])).value;
    assert temp[At(c, t.temp) := File(data)] == s.nodes[At(c, t.temp) := File(data)];
  }

  /** What a push needs to unpack an archive: a fresh name, an empty directory there or none at all, and nothing
      failing. */
  ghost predicate Receives(c: Config, s: State, name: string, t: Trouble) {
    var at := Target(c, name);
    && IsAbs(c.cwd) && Rooted(s.nodes) && Calm(t)
    && name != "" && name !in s.names && ResolveWritePath(c, s.nodes, name).Ok?
    && (EmptyFolder(s.nodes, at) || Vacant(s.nodes, at)) && MkdirAll(s.nodes, at).Ok?
    && Apart(At(c, t.temp), at) && Create(MkdirAll(s.nodes, at).value, At(c, t.temp), File([])).Ok?
  }

  /** An item and its content, an archive of a directory under the item's name. */
  ghost predicate ArchiveOf(c: Config, i: Item, data: Bytes, kids: Forest) {
    && i.unpack && i.size == |data| && i.digest == c.sha(data) && c.sums(data, i.checksum)
    && WellNamedForest(kids) && c.decode(data) == Some(Stream(Listing(i.name, [], Branch(kids)), false))
  }

  /** Made or found, the target directory is empty when extraction starts. */
  lemma PreparedEmpty(c: Config, s: State, name: string, t: Trouble, data: Bytes)
    requires Receives(c, s, name, t)
    ensures
      var nodes := Prepared(c, s.nodes, Target(c, name), t, data);
      Rooted(nodes) && EmptyFolder(nodes, Target(c, name))
  {
    hide Locate, AbsPath, ResolveWritePath, MkdirAll, Create, EmptyFolder, Rooted;
    var at := Target(c, name);
    MadeEmpty(s.nodes, at);
    MkdirAllRooted(s.nodes, at);
    SavedBeside(MkdirAll(s.nodes, at).value, at, At(c, t.temp), data);
  }

  lemma MadeEmpty(nodes: Nodes, at: Loc)
    requires (EmptyFolder(nodes, at) || Vacant(nodes, at)) && MkdirAll(nodes, at).Ok?
    ensures EmptyFolder(MkdirAll(nodes, at).value, at)
  {
    hide MkdirAll;
    MkdirAllAdds(nodes, at);
  }

  lemma SavedBeside(nodes: Nodes, at: Loc, temp: Loc, data: Bytes)
    requires Rooted(nodes) && EmptyFolder(nodes, at) && Apart(temp, at) && Create(nodes, temp, File([])).Ok?
    ensures Rooted(nodes[temp := File(data)]) && EmptyFolder(nodes[temp := File(data)], at)
  {
  }

  lemma UnpackedIs(c: Config, s: State, i: Item, data: Bytes, t: Trouble, kids: Forest)
    requires Receives(c, s, i.name, t) && ArchiveOf(c, i, data, kids)
    ensures
      var nodes := Prepared(c, s.nodes, Target(c, i.name), t, data);
      var e := Extract(nodes, c.cwd, AbsPath(c, i.name), i.name, Listing(i.name, [], Branch(kids)));
      var put := Put(c, s, i, Source(data, false), t);
      && Rooted(nodes) && EmptyFolder(nodes, Target(c, i.name))
      && (put.err.None? <==> e.ok) && put.state.nodes == e.nodes && (e.ok ==> i.name in put.state.names)
  {
    hide Locate, AbsPath, Extract, Listing, PushDir, ResolveWritePath, WellNamedForest, MkdirAll, EmptyFolder, Vacant;
    PreparedEmpty(c, s, i.name, t, data);
    CalmPushDir(c, s, AbsPath(c, i.name), i, data, t);
    ResolvesToPath(c, s.nodes, i.name);
  }

  /** The archive of a tree without links, pushed to an empty directory or to none, unpacks to exactly the
      tree. */
  lemma UnpackedDirectory(c: Config, s: State, i: Item, data: Bytes, t: Trouble, kids: Forest)
    requires Receives(c, s, i.name, t) && ArchiveOf(c, i, data, kids) && LinkFreeForest(kids)
    ensures
      var put := Put(c, s, i, Source(data, false), t);
      var at := Target(c, i.name);
      && put.err == None && i.name in put.state.names
      && put.state.nodes == Prepared(c, s.nodes, at, t, data) + Placed(at, Branch(kids))
      && HoldsTree(put.state.nodes, at, Branch(kids))
  {
    hide Locate, AbsPath, Extract, Listing, Placed, Put, ResolveWritePath, LinkFreeForest, WellNamedForest, Create;
    hide MkdirAll, EmptyFolder, Vacant;
    var nodes := Prepared(c, s.nodes, Target(c, i.name), t, data);
    UnpackedIs(c, s, i, data, t, kids);
    ArchiveRoundTrip(nodes, c.cwd, AbsPath(c, i.name), i.name, kids);
    PlacedHere(nodes, Target(c, i.name), kids);
  }

  lemma PlacedHere(nodes: Nodes, at: Loc, kids: Forest)
    requires EmptyFolder(nodes, at)
    ensures HoldsTree(nodes + Placed(at, Branch(kids)), at, Branch(kids))
  {
    hide Placed;
    PlacedBelow(at, Branch(kids));
  }

  /** Pushed to an absolute path under a relative name, as names in an absolute working directory are, an
      archived directory unpacks if and only if it holds no link. */
  lemma UnpacksExactly(c: Config, s: State, i: Item, data: Bytes, t: Trouble, kids: Forest)
    requires Receives(c, s, i.name, t) && ArchiveOf(c, i, data, kids)
    requires IsAbs(c.workingDir) && !IsAbs(i.name)
    ensures Put(c, s, i, Source(data, false), t).err.None? <==> LinkFreeForest(kids)
  {
    hide Locate, Extract, Listing, Placed, Put, ResolveWritePath, LinkFreeForest, WellNamedForest, Create, JoinPath;
    hide MkdirAll, EmptyFolder, Vacant;
    var nodes := Prepared(c, s.nodes, Target(c, i.name), t, data);
    JoinKeepsRoot(c.workingDir, i.name);
    UnpackedIs(c, s, i, data, t, kids);
    RoundTripExactly(nodes, c.cwd, AbsPath(c, i.name), i.name, kids);
  }

  // ---- The same tree ----

  /** Two places hold the same tree. */
  ghost predicate SameTree(a: Nodes, p: Loc, b: Nodes, q: Loc) {
    forall rel: Loc :: Matches(a, p + rel, b, q + rel)
  }

  lemma {:induction false} Relocated(p: Loc, q: Loc, t: Tree, rel: Loc)
    ensures Matches(Placed(p, t), p + rel, Placed(q, t), q + rel)
    decreases t
  {
    if rel == [] {
      assert p + rel == p && q + rel == q;
    }
    if t.Branch? {
      PlacedForestBelow(p, t.kids);
      PlacedForestBelow(q, t.kids);
      if rel != [] {
        RelocatedForest(p, q, t.kids, rel);
      }
    }
  }

  lemma {:induction false} RelocatedForest(p: Loc, q: Loc, f: Forest, rel: Loc)
    requires rel != []
    ensures Matches(PlacedForest(p, f), p + rel, PlacedForest(q, f), q + rel)
    decreases f
  {
    if f.More? {
      RelocatedForest(p, q, f.rest, rel);
      PlacedBelow(p + [f.name], f.tree);
      PlacedBelow(q + [f.name], f.tree);
      if rel[0] == f.name {
        Relocated(p + [f.name], q + [f.name], f.tree, rel[1..]);
        assert p + [f.name] + rel[1..] == p + rel && q + [f.name] + rel[1..] == q + rel;
      } else {
        assert (p + rel)[|p|] == rel[0] && (q + rel)[|q|] == rel[0];
      }
    }
  }

  lemma TreesMatch(a: Nodes, p: Loc, b: Nodes, q: Loc, t: Tree)
    requires HoldsTree(a, p, t) && HoldsTree(b, q, t)
    ensures SameTree(a, p, b, q)
  {
    hide Placed;
    forall rel: Loc ensures Matches(a, p + rel, b, q + rel) {
      Relocated(p, q, t, rel);
      assert Matches(a, p + rel, Placed(p, t), p + rel) && Matches(b, q + rel, Placed(q, t), q + rel);
    }
  }

  /** No link stands at or below a location. */
  ghost predicate NoLinks(nodes: Nodes, at: Loc) {
    forall l | l in nodes && at <= l :: !nodes[l].Link?
  }

  ghost predicate Linkless(nodes: Nodes) {
    forall l | l in nodes :: !nodes[l].Link?
  }

  lemma LinklessSum(a: Nodes, b: Nodes)
    requires forall l | l in a :: l !in b
    ensures Linkless(a + b) <==> Linkless(a) && Linkless(b)
  {
    assert forall l | l in a :: (a + b)[l] == a[l];
    assert forall l | l in b :: (a + b)[l] == b[l];
    if Linkless(a + b) {
      forall l | l in a ensures !a[l].Link? {
        assert l in a + b;
      }
      forall l | l in b ensures !b[l].Link? {
        assert l in a + b;
      }
    }
  }

  lemma {:induction false} LinkPlaced(at: Loc, t: Tree)
    requires WellNamed(t)
    ensures LinkFree(t) <==> Linkless(Placed(at, t))
    decreases t
  {
    match t
    case Leaf(_) =>
    case Symlink(_) =>
      assert Placed(at, t)[at].Link?;
    case Branch(kids) =>
      LinkPlacedForest(at, kids);
      PlacedForestBelow(at, kids);
      LinklessSum(map[at := Folder], PlacedForest(at, kids));
      assert Linkless(map[at := Folder]);
  }

  lemma {:induction false} LinkPlacedForest(at: Loc, f: Forest)
    requires WellNamedForest(f)
    ensures LinkFreeForest(f) <==> Linkless(PlacedForest(at, f))
    decreases f
  {
    hide Placed, Linkless;
    if f.More? {
      LinkPlaced(at + [f.name], f.tree);
      LinkPlacedForest(at, f.rest);
      PlacedBelow(at + [f.name], f.tree);
      PlacedForestBelow(at, f.rest);
      var first, rest := Placed(at + [f.name], f.tree), PlacedForest(at, f.rest);
      forall l | l in first ensures l !in rest {
        assert l[|at|] == f.name;
      }
      LinklessSum(first, rest);
    } else {
      LinklessNone();
    }
  }

  lemma LinklessNone()
    ensures Linkless(map[])
  {
  }

  lemma LinksHeld(nodes: Nodes, at: Loc, t: Tree)
    requires HoldsTree(nodes, at, t) && WellNamed(t)
    ensures NoLinks(nodes, at) <==> LinkFree(t)
  {
    hide Placed;
    LinkPlaced(at, t);
    PlacedBelow(at, t);
    var placed := Placed(at, t);
    if NoLinks(nodes, at) {
      forall l | l in placed ensures !placed[l].Link? {
        assert Matches(nodes, l, placed, l);
      }
    }
    if Linkless(placed) {
      forall l | l in nodes && at <= l ensures !nodes[l].Link? {
        assert Matches(nodes, l, placed, l);
      }
    }
  }

  lemma FolderHeld(nodes: Nodes, at: Loc, t: Tree)
    requires HoldsTree(nodes, at, t)
    ensures IsFolder(nodes, at) <==> t.Branch?
    ensures at in nodes
  {
    PlacedBelow(at, t);
    if t.Branch? {
      PlacedForestBelow(at, t.kids);
    }
    assert Matches(nodes, at, Placed(at, t), at);
  }

  // ---- From store to store ----

  /** Added to one store, fetched there and pushed to another, where the name is free and nothing is in it: the
      push succeeds if and only if the directory holds no link, and then the same tree has arrived. */
  lemma DirectoryTravels(
    from: Config, s: State, name: string, mediaType: string, path: string, t: Trouble, tree: Tree,
    to: Config, s': State, t': Trouble)
    requires EncodesBack(from) && to.sha == from.sha && to.decode == from.decode && to.sums == from.sums
    requires IsFolder(s.nodes, AddedFrom(from, name, path))
    requires HoldsTree(s.nodes, AddedFrom(from, name, path), tree) && WellNamed(tree)
    requires Add(from, s, name, mediaType, path, t, tree).result.Ok?
    requires Receives(to, s', name, t') && IsAbs(to.workingDir) && !IsAbs(name)
    ensures
      var added := Add(from, s, name, mediaType, path, t, tree);
      var i := added.result.value;
      var data := Fetch(from, added.state, i);
      && data.Ok?
      && var put := Put(to, s', i, data.value, t');
         && (put.err.None? <==> NoLinks(s.nodes, AddedFrom(from, name, path)))
         && (put.err.None? ==>
               name in put.state.names
               && SameTree(s.nodes, AddedFrom(from, name, path), put.state.nodes, Target(to, name)))
  {
    hide *;
    var at := AddedFrom(from, name, path);
    FolderHeld(s.nodes, at, tree);
    AddedDirectory(from, s, name, mediaType, path, t, tree);
    var i := Add(from, s, name, mediaType, path, t, tree).result.value;
    var gz := from.encode(Listing(name, [], tree));
    SentArchive(from, to, i, tree);
    LinksHeld(s.nodes, at, tree);
    LinkFreeBranch(tree);
    UnpacksExactly(to, s', i, gz.data, t', tree.kids);
    if LinkFree(tree) {
      UnpackedDirectory(to, s', i, gz.data, t', tree.kids);
      var nodes := Put(to, s', i, Source(gz.data, false), t').state.nodes;
      TreesMatch(s.nodes, at, nodes, Target(to, name), tree);
    }
  }

  lemma LinkFreeBranch(tree: Tree)
    requires tree.Branch?
    ensures LinkFree(tree) <==> LinkFreeForest(tree.kids)
  {
  }

  lemma SentArchive(from: Config, to: Config, i: Item, tree: Tree)
    requires EncodesBack(from) && to.sha == from.sha && to.decode == from.decode && to.sums == from.sums
    requires tree.Branch? && WellNamed(tree)
    requires
      var gz := from.encode(Listing(i.name, [], tree));
      i.unpack && i.size == |gz.data| && i.digest == from.sha(gz.data) && i.checksum == gz.checksum
    ensures ArchiveOf(to, i, from.encode(Listing(i.name, [], tree)).data, tree.kids)
  {
    hide Listing;
    assert Encodes(from, Listing(i.name, [], tree));
  }
}
