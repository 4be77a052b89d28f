/** The file store: the object whose methods run on its own indexes and on the file system. */
module FileStore {
  import opened GoStrings
  import opened Paths
  import opened Disk
  import opened Archive
  import opened RoundTrip
  import opened StoreSpec
  import opened StoreTags
  import opened PushEffects
  import opened StoreLaws
  import opened DirectoryTravel

  /** A descriptor's annotations, shared by whoever holds the descriptor. */
  class Annotations {
    var notes: Notes

    constructor ()
      ensures notes == map[]
    {
      notes := map[];
    }
  }

  type Descriptor = Desc<Annotations>

  class Store {
    const c: Config
    const fs: FileSystem
    var closed: bool
    var digestToPath: map<Digest, string>
    var nameToStatus: map<string, bool>
    var tmpFiles: set<string>
    var resolver: map<string, Descriptor>
    var fallback: map<CasKey, Bytes>

    ghost predicate Valid()
      reads this, fs
    {
      fs.Valid() && fs.cwd == c.cwd
    }

    /** The store's state; a name exists when its status says so. */
    ghost function State(): State
      reads this, fs
    {
      StoreSpec.State(fs.nodes, digestToPath, Existing(nameToStatus), tmpFiles, fallback)
    }

    static function Existing(status: map<string, bool>): set<string> {
      set n | n in status && status[n]
    }

    constructor (c: Config, fs: FileSystem)
      requires fs.Valid() && fs.cwd == c.cwd
      ensures Valid() && !closed && this.c == c && this.fs == fs && resolver == map[]
      ensures State() == StoreSpec.State(fs.nodes, map[], {}, {}, map[])
    {
      this.c, this.fs, closed := c, fs, false;
      digestToPath, nameToStatus, tmpFiles, resolver, fallback := map[], map[], {}, map[], map[];
    }

    /** Looks a name up, entering it as absent when it is new. */
    method NameExists(name: string) returns (there: bool)
      requires Valid()
      modifies this`nameToStatus
      ensures Valid() && State() == old(State())
      ensures there <==> name in State().names
    {
      if name !in nameToStatus {
        nameToStatus := nameToStatus[name := false];
      }
      return nameToStatus[name];
    }

    method SetExists(name: string)
      requires Valid()
      modifies this`nameToStatus
      ensures Valid() && State() == old(State()).(names := old(State()).names + {name})
    {
      nameToStatus := nameToStatus[name := true];
    }

    method Fetch(i: Item) returns (r: Result<Source, Error>)
      requires Valid()
      modifies this`nameToStatus
      ensures Valid() && State() == old(State())
      ensures r == if closed then Err(Closed) else StoreSpec.Fetch(c, old(State()), i)
    {
      hide Locate;
      if closed {
        return Err(Closed);
      }
      if i.name != "" {
        var there := NameExists(i.name);
        if !there {
          return Err(NotFound);
        }
      }
      if i.digest in digestToPath {
        match Lstat(fs.nodes, fs.At(digestToPath[i.digest])) {
          case Ok(File(data)) =>
            return Ok(Source(data, false));
          case Ok(Folder) =>
            return Ok(Source([], true));
          case Ok(Link(_)) =>
            return Err(Failed);
          case Err(e) =>
            return Err(if e == NotExist then NotFound else Failed);
        }
      }
      return if Key(i) in fallback then Ok(Source(fallback[Key(i)], false)) else Err(NotFound);
    }

    method FetchAll(i: Item) returns (r: Result<Bytes, Error>)
      requires Valid() && !closed
      modifies this`nameToStatus
      ensures Valid() && State() == old(State())
      ensures r == StoreSpec.FetchAll(c, old(State()), i)
    {
      hide StoreSpec.Fetch;
      var src := Fetch(i);
      if src.Err? {
        return Err(src.error);
      }
      var data := src.value.data;
      if src.value.fails || i.size < 0 || |data| != i.size || c.sha(data) != i.digest {
        return Err(Failed);
      }
      return Ok(data);
    }

    method Exists(i: Item) returns (r: Result<bool, Error>)
      requires Valid()
      modifies this`nameToStatus
      ensures Valid() && State() == old(State())
      ensures r == if closed then Err(Closed) else Ok(StoreSpec.Exists(old(State()), i))
    {
      if closed {
        return Err(Closed);
      }
      if i.name != "" {
        var there := NameExists(i.name);
        if !there {
          return Ok(false);
        }
      }
      return Ok(i.digest in digestToPath || Key(i) in fallback);
    }

    method ResolvePath(name: string) returns (r: Result<string, Error>)
      requires Valid()
      ensures r == ResolveWritePath(c, fs.nodes, name)
    {
      hide Locate, Rel, Abs;
      var path := AbsPath(c, name);
      if !c.allowTraversal {
        var rel := Rel(Abs(c.cwd, c.workingDir), Abs(c.cwd, path));
        if rel.None? {
          return Err(TraversalDisallowed);
        }
        if HasPrefix(rel.value, "../") || rel.value == ".." {
          return Err(TraversalDisallowed);
        }
      }
      if c.disableOverwrite {
        match Stat(c, fs.nodes, fs.At(path)) {
          case Ok(_) =>
            return Err(OverwriteDisallowed);
          case Err(e) =>
            if e != NotExist {
              return Err(Failed);
            }
        }
      }
      return Ok(path);
    }

    method Save(path: string, i: Item, src: Source, t: Trouble) returns (ok: bool)
      requires Valid()
      modifies this`digestToPath, fs
      ensures Valid() && Saved(State(), ok) == SaveFile(c, old(State()), path, i, src, t)
    {
      hide Locate, Write;
      var _ := fs.WriteFile(path, Written(i, src, t), false);
      if !Verified(c, i, src, t) {
        return false;
      }
      digestToPath := digestToPath[i.digest := path];
      return !t.close;
    }

    method SaveToTarget(target: string, i: Item, src: Source, t: Trouble) returns (ok: bool)
      requires Valid()
      modifies this`digestToPath, fs
      ensures Valid() && Saved(State(), ok) == PushFile(c, old(State()), target, i, src, t)
    {
      hide Locate, Write, MkdirAll, Dir, SaveFile;
      if t.mkdir {
        return false;
      }
      ok := fs.Mkdirs(Dir(target));
      if !ok || t.open {
        return false;
      }
      ok := fs.WriteFile(target, [], false);
      if !ok {
        return false;
      }
      ok := Save(target, i, src, t);
      return ok && !t.chown;
    }

    method Unpack(target: string, i: Item, src: Source, t: Trouble) returns (ok: bool)
      requires Valid()
      modifies this`digestToPath, this`tmpFiles, fs
      ensures Valid() && Saved(State(), ok) == PushDir(c, old(State()), target, i, src, t)
    {
      hide Locate, Create, MkdirAll, SaveFile, Extract;
      if t.mkdir {
        return false;
      }
      ok := fs.Mkdirs(target);
      if !ok || t.open {
        return false;
      }
      ok := fs.CreateTemp(t.temp);
      if !ok {
        return false;
      }
      tmpFiles := tmpFiles + {t.temp};
      ok := Save(t.temp, i, src, t);
      if !ok {
        return false;
      }
      var stream := c.decode(src.data);
      if stream.None? {
        return false;
      }
      ok := ExtractTarDirectory(fs, target, i.name, stream.value);
      return ok && c.sums(src.data, i.checksum);
    }

    method PushFallback(i: Item, src: Source) returns (err: Option<Error>)
      requires Valid()
      modifies this`fallback
      ensures Valid() && Done(State(), err) == FallbackPush(c, old(State()), i, src)
    {
      if i.size > c.fallbackLimit {
        return Some(Failed);
      }
      if Key(i) in fallback {
        return Some(AlreadyExists);
      }
      if i.size < 0 || |src.data| < i.size || c.sha(src.data[..i.size]) != i.digest {
        return Some(Failed);
      }
      var data := src.data[..i.size];
      fallback := fallback[Key(i) := data];
      if IsManifest(i.mediaType) && c.links(i.mediaType, data).None? {
        return Some(Failed);
      }
      return None;
    }

    /** `push`. What `SaveToTarget` returns is not looked at. */
    method PutContent(i: Item, src: Source, t: Trouble) returns (err: Option<Error>)
      requires Valid()
      modifies this, fs
      ensures Valid() && closed == old(closed) && resolver == old(resolver)
      ensures Done(State(), err) == Put(c, old(State()), i, src, t)
    {
      hide Locate, PushFile, PushDir, FallbackPush, ResolveWritePath;
      if i.name == "" {
        if c.ignoreNoName {
          return None;
        }
        err := PushFallback(i, src);
        return;
      }
      var there := NameExists(i.name);
      if there {
        return Some(DuplicateName);
      }
      var target := ResolvePath(i.name);
      if target.Err? {
        return Some(target.error);
      }
      if i.unpack {
        var ok := Unpack(target.value, i, src, t);
        if !ok {
          return Some(Failed);
        }
      } else {
        if !i.parses {
          return Some(Failed);
        }
        var _ := SaveToTarget(target.value, i, src, t);
      }
      SetExists(i.name);
      return None;
    }

    method FindSuccessors(i: Item) returns (r: Result<seq<Item>, Error>)
      requires Valid() && !closed
      modifies this`nameToStatus
      ensures Valid() && State() == old(State())
      ensures r == Successors(c, old(State()), i)
    {
      hide StoreSpec.FetchAll;
      if !IsManifest(i.mediaType) {
        return Ok([]);
      }
      var data := FetchAll(i);
      if data.Err? {
        return Err(data.error);
      }
      var items := c.links(i.mediaType, data.value);
      return if items.None? then Err(Failed) else Ok(items.value);
    }

    method RestoreDuplicates(i: Item, t: string -> Trouble) returns (err: Option<Error>)
      requires Valid() && !closed
      modifies this, fs
      ensures Valid() && !closed && resolver == old(resolver)
      ensures
        var found := Successors(c, old(State()), i);
        Done(State(), err)
        == match found
           case Err(e) => Done(old(State()), Some(e))
           case Ok(items) => Restore(c, old(State()), items, t)
    {
      hide Put, Successors, Locate;
      var successors := FindSuccessors(i);
      if successors.Err? {
        return Some(successors.error);
      }
      var items := successors.value;
      ghost var whole := Restore(c, State(), items, t);
      var k := 0;
      assert items[0..] == items;
      while k < |items|
        invariant 0 <= k <= |items|
        invariant Valid() && !closed && resolver == old(resolver)
        invariant whole == Restore(c, State(), items[k..], t)
      {
        var successor := items[k];
        assert items[k..][0] == successor && items[k..][1..] == items[k + 1..];
        k := k + 1;
        if successor.name == "" {
          continue;
        }
        var there := NameExists(successor.name);
        if there {
          continue;
        }
        var data := Fetch(successor.(name := ""));
        if data.Err? {
          if data.error != NotFound {
            return Some(data.error);
          }
          continue;
        }
        err := PutContent(successor, data.value, t(successor.name));
        if err.Some? && err.value != NotFound {
          return;
        }
      }
      return None;
    }

    /** `AddManifest` on the store's graph: whether the graph accepts what was pushed. */
    method AddToGraph(i: Item) returns (err: Option<Error>)
      requires Valid() && !closed
      modifies this`nameToStatus
      ensures Valid() && State() == old(State())
      ensures err == GraphError(c, old(State()), i)
    {
      hide StoreSpec.FetchAll;
      var items: seq<Item> := [];
      if InGraph(i.mediaType) {
        var data := FetchAll(i);
        if data.Err? {
          return Some(data.error);
        }
        var links := c.graphLinks(i.mediaType, data.value);
        if links.None? {
          return Some(Failed);
        }
        items := links.value;
      }
      if !i.parses {
        return Some(Failed);
      }
      for k := 0 to |items|
        invariant forall j | 0 <= j < k :: items[j].parses && items[j].digest != i.digest
      {
        if !items[k].parses || items[k].digest == i.digest {
          return Some(Failed);
        }
      }
      return None;
    }

    method Push(i: Item, src: Source, t: string -> Trouble) returns (err: Option<Error>)
      requires Valid()
      modifies this, fs
      ensures Valid() && closed == old(closed) && resolver == old(resolver)
      ensures Done(State(), err)
           == if old(closed) then Done(old(State()), Some(Closed)) else StoreSpec.Push(c, old(State()), i, src, t)
    {
      hide Restore, Successors, ResolveWritePath, PushFile, PushDir, FallbackPush, GraphError;
      if closed {
        return Some(Closed);
      }
      err := PutContent(i, src, t(i.name));
      if i.name == "" && c.ignoreNoName {
        return None;
      }
      if err.Some? {
        return;
      }
      if !c.forceCAS {
        err := RestoreDuplicates(i, t);
        if err.Some? {
          return;
        }
      }
      err := AddToGraph(i);
    }

    /** `descriptorFromDir`: the walk over the directory, its archive in a temporary file, and the item. */
    method DescribeDir(name: string, mediaType: string, path: string, t: Trouble)
      returns (r: Option<Item>, ghost tree: Tree)
      requires Valid() && fs.At(path) in fs.nodes
      modifies this`digestToPath, this`tmpFiles, fs
      ensures Valid()
      ensures
        var added := AddDir(c, old(State()), name, mediaType, tree, t);
        && State().(names := added.state.names) == added.state
        && (r.Some? <==> added.result.Ok?) && (r.Some? ==> r.value == added.result.value)
      ensures
        var temp := Create(old(fs.nodes), fs.At(t.temp), File([]));
        !t.open && temp.Ok? ==> WellNamed(tree) && HoldsTree(temp.value, fs.At(path), tree)
    {
      hide Locate, Listing, HoldsTree, WellNamed;
      tree := Leaf([]);
      if t.open {
        return None, tree;
      }
      var ok := fs.CreateTemp(t.temp);
      if !ok {
        return None, tree;
      }
      tmpFiles := tmpFiles + {t.temp};
      var tw := new TarWriter();
      ok, tree := TarDirectory(fs, path, name, tw);
      assert [] + Listing(name, [], tree) == Listing(name, [], tree);
      var gz := c.encode(tw.headers);
      var written := if t.space.Some? then Take(gz.data, t.space.value) else gz.data;
      ok := fs.WriteFile(t.temp, written, false);
      if |written| < |gz.data| {
        return None, tree;
      }
      var digest := c.sha(gz.data);
      digestToPath := digestToPath[digest := t.temp];
      if t.close {
        return None, tree;
      }
      return Some(Item(MediaType(mediaType, BLOB_DIR), digest, |gz.data|, name, true, gz.checksum, true)), tree;
    }

    method DescribeFile(name: string, mediaType: string, path: string, data: Bytes, t: Trouble)
      returns (r: Option<Item>)
      requires Valid()
      modifies this`digestToPath
      ensures Valid()
      ensures
        var added := AddFile(c, old(State()), name, mediaType, path, data, t);
        && State().(names := added.state.names) == added.state
        && (r.Some? <==> added.result.Ok?) && (r.Some? ==> r.value == added.result.value)
    {
      if t.open {
        return None;
      }
      var digest := c.sha(data);
      digestToPath := digestToPath[digest := path];
      if t.close {
        return None;
      }
      return Some(Item(MediaType(mediaType, BLOB), digest, |data|, name, false, "", true));
    }

    /** `Add`, with the tree that the walk found, where a directory was walked. */
    method Add(name: string, mediaType: string, path: string, t: Trouble)
      returns (r: Result<Item, Error>, ghost tree: Tree)
      requires Valid()
      modifies this, fs
      ensures Valid() && closed == old(closed) && resolver == old(resolver)
      ensures Added(State(), r)
           == if closed then Added(old(State()), Err(Closed))
              else StoreSpec.Add(c, old(State()), name, mediaType, path, t, tree)
      ensures r.Ok? && IsFolder(old(fs.nodes), AddedFrom(c, name, path)) ==>
                var temp := Create(old(fs.nodes), fs.At(t.temp), File([]));
                temp.Ok? && WellNamed(tree) && HoldsTree(temp.value, AddedFrom(c, name, path), tree)
    {
      hide Locate, AbsPath, Listing, HoldsTree, WellNamed;
      tree := Leaf([]);
      if closed {
        return Err(Closed), tree;
      }
      if name == "" {
        return Err(MissingName), tree;
      }
      var there := NameExists(name);
      if there {
        return Err(DuplicateName), tree;
      }
      var from := AbsPath(c, if path == "" then name else path);
      var info := Stat(c, fs.nodes, fs.At(from));
      if info.Err? || info.value.Link? {
        return Err(Failed), tree;
      }
      var item: Option<Item>;
      if info.value.Folder? {
        item, tree := DescribeDir(name, mediaType, from, t);
      } else {
        item := DescribeFile(name, mediaType, from, info.value.data, t);
      }
      if item.None? {
        return Err(Failed), tree;
      }
      SetExists(name);
      return Ok(item.value), tree;
    }

    method Resolve(ref: string) returns (r: Result<Descriptor, Error>)
      requires Valid()
      ensures r == if closed then Err(Closed) else StoreTags.Resolve(resolver, ref)
    {
      if closed {
        return Err(Closed);
      }
      if ref == "" {
        return Err(MissingReference);
      }
      return if ref in resolver then Ok(resolver[ref]) else Err(NotStored);
    }

    /** What the annotations in `heap` hold now. */
    static ghost function Snapshot(heap: set<Annotations>): map<Annotations, Notes>
      reads heap
    {
      map a | a in heap :: a.notes
    }

    method Remember(desc: Descriptor, ref: string, own: Notes, at: Annotations)
      requires Valid()
      modifies this`resolver, at
      ensures Valid() && State() == old(State())
      ensures at.notes == own[REF_NAME := ref] && resolver == old(resolver)[ref := desc.(notes := Some(at))]
    {
      hide Existing;
      at.notes := own[REF_NAME := ref];
      resolver := resolver[ref := desc.(notes := Some(at))];
    }

    /** What `Tag` checks before it writes anything. */
    method CheckTag(desc: Descriptor, ref: string, own: Notes) returns (err: Option<Error>)
      requires Valid()
      modifies this`nameToStatus
      ensures Valid() && State() == old(State())
      ensures
        var i := Described(c, own, desc.mediaType, desc.digest, desc.size);
        err == if closed then Some(Closed)
               else if ref == "" then Some(MissingReference)
               else if !StoreSpec.Exists(State(), i) then Some(NotFound)
               else None
    {
      hide Described, StoreSpec.Exists, Locate, Existing;
      if closed {
        return Some(Closed);
      }
      if ref == "" {
        return Some(MissingReference);
      }
      var there := Exists(Described(c, own, desc.mediaType, desc.digest, desc.size));
      return if there.value then None else Some(NotFound);
    }

    /** `Tag` writes the reference into the descriptor's own annotations; no others change. */
    method Tag(desc: Descriptor, ref: string, ghost heap: set<Annotations>)
      returns (err: Option<Error>, ghost spare: Annotations)
      requires Valid() && (desc.notes.Some? ==> desc.notes.value in heap)
      modifies this`nameToStatus, this`resolver, if desc.notes.Some? then {desc.notes.value} else {}
      ensures Valid() && State() == old(State())
      ensures spare !in heap
      ensures
        var before := Tags(old(resolver), old(Snapshot(heap)));
        var r := if closed then Err(Closed) else StoreTags.Tag(c, State(), before, desc, ref, spare);
        match r
        case Err(e) => err == Some(e) && resolver == before.refs && Snapshot(heap) == before.notes
        case Ok(tags) =>
          && err == None && resolver == tags.refs
          && Snapshot(heap + {Address(desc, spare)}) == tags.notes
    {
      hide Described, StoreSpec.Exists, Locate, Existing, this.State, Rooted, PlainNames;
      var made := new Annotations();
      spare := made;
      var own := if desc.notes.Some? then desc.notes.value.notes else map[];
      assert own == NotesOf(Snapshot(heap), desc);
      err := CheckTag(desc, ref, own);
      if err.Some? {
        return;
      }
      Remember(desc, ref, own, Address(desc, made));
    }

    ghost function Temps(): set<Loc>
      reads this
    {
      set name | name in tmpFiles :: Locate(c.cwd, name)
    }

    /** `Close` removes the temporary files, in any order; a second close does nothing. */
    method Close() returns (ok: bool)
      requires Valid()
      modifies this, fs
      ensures Valid() && closed && Temps() == old(Temps())
      ensures old(closed) ==> ok && State() == old(State())
      ensures forall l | l !in Temps() :: l in fs.nodes <==> l in old(fs.nodes)
      ensures forall l | l in fs.nodes :: l in old(fs.nodes) && fs.nodes[l] == old(fs.nodes)[l]
      ensures !old(closed) ==>
                forall l | l in Temps() && l in old(fs.nodes) && old(fs.nodes)[l] != Folder :: l !in fs.nodes
      ensures !old(closed) && ok ==> Cleared(c, old(State()), fs.nodes)
    {
      hide Locate;
      if closed {
        return true;
      }
      closed := true;
      ok := true;
      ghost var before := fs.nodes;
      var left := tmpFiles;
      while left != {}
        invariant Valid() && left <= tmpFiles
        invariant forall l | l !in Temps() :: l in fs.nodes <==> l in before
        invariant forall l | l in fs.nodes :: l in before && fs.nodes[l] == before[l]
        invariant forall name | name in tmpFiles - left && fs.At(name) in fs.nodes ::
          !ok && fs.nodes[fs.At(name)] == Folder
        modifies fs
        decreases |left|
      {
        var name :| name in left;
        left := left - {name};
        RemoveSucceeds(fs.nodes, fs.At(name));
        var removed := fs.RemoveFile(name);
        ok := ok && removed;
      }
      forall l | l in Temps() && l in fs.nodes ensures !ok && fs.nodes[l] == Folder {
        var name :| name in tmpFiles && l == Locate(c.cwd, name);
        assert name in tmpFiles - left && fs.At(name) == l;
      }
    }
  }

  /** A file made elsewhere does not change what a place holds. */
  lemma HeldBefore(nodes: Nodes, temp: Loc, at: Loc, tree: Tree)
    requires Apart(temp, at) && Create(nodes, temp, File([])).Ok?
    requires HoldsTree(Create(nodes, temp, File([])).value, at, tree)
    ensures HoldsTree(nodes, at, tree)
  {
    hide Placed;
    var after := Create(nodes, temp, File([])).value;
    forall l | at <= l ensures Matches(nodes, l, Placed(at, tree), l) {
      assert Matches(after, l, Placed(at, tree), l);
    }
  }

  /** An item made by `Add` is accepted by the graph unless it is called a manifest, and restores nothing. */
  lemma PushedAsPut(c: Config, s: State, i: Item, src: Source, t: string -> Trouble)
    requires i.name != "" && i.parses && !InGraph(i.mediaType)
    ensures StoreSpec.Push(c, s, i, src, t) == Put(c, s, i, src, t(i.name))
  {
    hide Put;
  }

  lemma PushedAfterPut(c: Config, s: State, i: Item, src: Source, t: string -> Trouble)
    requires i.name != "" && StoreSpec.Push(c, s, i, src, t).err.None?
    ensures Put(c, s, i, src, t(i.name)).err.None?
  {
    hide Put, Restore, Successors, GraphError;
  }

  /** A directory is added to one store, fetched there and pushed to another. With nothing failing the add
      succeeds. A push succeeds only if the directory holds no link. If the item is not called a manifest, that
      is also enough, and then the same tree has arrived. */
  method SendDirectory(
    from: Store, to: Store, name: string, mediaType: string, path: string, t: Trouble, t': Trouble)
    returns (sent: Result<Item, Error>, err: Option<Error>)
    requires from.Valid() && to.Valid() && from != to && from.fs != to.fs && !from.closed && !to.closed
    requires EncodesBack(from.c) && to.c.sha == from.c.sha && to.c.decode == from.c.decode && to.c.sums == from.c.sums
    requires IsFolder(from.fs.nodes, AddedFrom(from.c, name, path))
    requires Apart(from.fs.At(t.temp), AddedFrom(from.c, name, path))
    requires Receives(to.c, to.State(), name, t') && IsAbs(to.c.workingDir) && !IsAbs(name)
    modifies from, from.fs, to, to.fs
    ensures Calm(t) && old(name !in from.State().names && Create(from.fs.nodes, from.fs.At(t.temp), File([])).Ok?) ==>
              sent.Ok?
    ensures sent.Ok? && err.None? ==> NoLinks(old(from.fs.nodes), AddedFrom(from.c, name, path))
    ensures sent.Ok? && !InGraph(sent.value.mediaType) ==>
              var at := AddedFrom(from.c, name, path);
              && (err.None? <==> NoLinks(old(from.fs.nodes), at))
              && (err.None? ==> SameTree(old(from.fs.nodes), at, to.fs.nodes, Target(to.c, name)))
  {
    hide Locate, AbsPath, StoreSpec.Add, Put, StoreSpec.Fetch, Placed, HoldsTree, Receives, NoLinks, SameTree;
    hide EncodesBack, Rooted, PlainNames, Create, WellNamed, AddedFrom, StoreSpec.Push;
    ghost var s, s' := from.State(), to.State();
    ghost var tree;
    ReceivesName(to.c, s', name, t');
    sent, tree := from.Add(name, mediaType, path, t);
    AddSucceeds(from.c, s, name, mediaType, path, t, tree);
    if sent.Err? {
      return sent, None;
    }
    HeldBefore(s.nodes, from.fs.At(t.temp), AddedFrom(from.c, name, path), tree);
    DirectoryTravels(from.c, s, name, mediaType, path, t, tree, to.c, s', t');
    var data := from.Fetch(sent.value);
    err := to.Push(sent.value, data.value, _ => t');
    if InGraph(sent.value.mediaType) {
      if err.None? {
        PushedAfterPut(to.c, s', sent.value, data.value, _ => t');
      }
    } else {
      PushedAsPut(to.c, s', sent.value, data.value, _ => t');
    }
  }

  lemma ReceivesName(c: Config, s: State, name: string, t: Trouble)
    requires Receives(c, s, name, t)
    ensures name != ""
  {
  }

  lemma AddSucceeds(c: Config, s: State, name: string, mediaType: string, path: string, t: Trouble, tree: Tree)
    requires name != "" && IsFolder(s.nodes, AddedFrom(c, name, path))
    ensures Calm(t) && name !in s.names && Create(s.nodes, At(c, t.temp), File([])).Ok? ==>
              Add(c, s, name, mediaType, path, t, tree).result.Ok?
    ensures
      var result := Add(c, s, name, mediaType, path, t, tree).result;
      result.Ok? ==>
        && Create(s.nodes, At(c, t.temp), File([])).Ok?
        && result.value.name == name && result.value.parses
  {
    hide Locate, AbsPath, Listing;
  }
}
