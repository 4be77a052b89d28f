/** The file store on values: its state and what each operation does to it. */
module StoreSpec {
  import opened GoStrings
  import opened Paths
  import opened Disk
  import opened Archive
  import opened RoundTrip

  type Digest = string

  /** Settings of a store, and the parts of its world that other code decides: digests, the archive format,
      checksums of archives, the links found in a manifest by the store and by its graph, which annotations can be
      read as attributes, and what `os.Stat` finds behind a symbolic link. */
  datatype Config = Config(
    cwd: string,
    workingDir: string,
    allowTraversal: bool,
    disableOverwrite: bool,
    forceCAS: bool,
    ignoreNoName: bool,
    fallbackLimit: int,
    sha: Bytes -> Digest,
    decode: Bytes -> Option<Stream>,
    sums: (Bytes, string) -> bool,
    encode: seq<Header> -> Packed,
    links: (string, Bytes) -> Option<seq<Item>>,
    graphLinks: (string, Bytes) -> Option<seq<Item>>,
    parses: map<string, string> -> bool,
    stat: (Nodes, Loc) -> Result<Node, Errno>)

  /** A compressed archive, and the checksum of what it unpacks to. */
  datatype Packed = Packed(data: Bytes, checksum: string)

  /** What the store reads off a descriptor: its identity and the annotations it acts on. `parses` tells
      whether its attributes can be read into a node. */
  datatype Item = Item(
    mediaType: string, digest: Digest, size: int, name: string, unpack: bool, checksum: string, parses: bool)

  datatype CasKey = CasKey(mediaType: string, digest: Digest, size: int)

  /** A content reader: the bytes it yields, and whether it then fails instead of ending. */
  datatype Source = Source(data: Bytes, fails: bool)

  /** What the operating system does to one push or add: which calls fail, how many bytes fit, and the name
      given to a temporary file. */
  datatype Trouble = Trouble(mkdir: bool, open: bool, space: Option<nat>, close: bool, chown: bool, temp: string)

  datatype Error = Closed | MissingReference | NotFound | DuplicateName | MissingName | TraversalDisallowed
                 | OverwriteDisallowed | NotStored | AlreadyExists | Failed

  datatype State = State(
    nodes: Nodes,
    index: map<Digest, string>,
    names: set<string>,
    tmp: set<string>,
    fallback: map<CasKey, Bytes>)

  /** The new state and the error, if any. */
  datatype Done = Done(state: State, err: Option<Error>)

  function At(c: Config, path: string): Loc {
    Locate(c.cwd, path)
  }

  function AbsPath(c: Config, path: string): string {
    if IsAbs(path) then path else JoinPath(c.workingDir, path)
  }

  /** Where a name is written. */
  function Target(c: Config, name: string): Loc {
    At(c, AbsPath(c, name))
  }

  /** `os.Stat`, which looks behind a link. */
  function Stat(c: Config, nodes: Nodes, l: Loc): Result<Node, Errno> {
    if l in nodes && nodes[l].Link? then c.stat(nodes, l) else Lstat(nodes, l)
  }

  function ResolveWritePath(c: Config, nodes: Nodes, name: string): Result<string, Error> {
    var path := AbsPath(c, name);
    var rel := Rel(Abs(c.cwd, c.workingDir), Abs(c.cwd, path));
    if !c.allowTraversal && (rel.None? || ClimbsOut(rel.value)) then Err(TraversalDisallowed)
    else if !c.disableOverwrite then Ok(path)
    else
      match Stat(c, nodes, At(c, path))
      case Ok(_) => Err(OverwriteDisallowed)
      case Err(e) => if e == NotExist then Ok(path) else Err(Failed)
  }

  // ---- Reading ----

  function Key(i: Item): CasKey {
    CasKey(i.mediaType, i.digest, i.size)
  }

  /** Opening what is stored: a directory opens like a file and fails when it is read. */
  function Fetch(c: Config, s: State, i: Item): Result<Source, Error> {
    if i.name != "" && i.name !in s.names then Err(NotFound)
    else if i.digest in s.index then
      match Lstat(s.nodes, At(c, s.index[i.digest]))
      case Ok(File(data)) => Ok(Source(data, false))
      case Ok(Folder) => Ok(Source([], true))
      case Ok(Link(_)) => Err(Failed)
      case Err(e) => Err(if e == NotExist then NotFound else Failed)
    else if Key(i) in s.fallback then Ok(Source(s.fallback[Key(i)], false))
    else Err(NotFound)
  }

  /** Fetching and reading everything, verified against size and digest. */
  function FetchAll(c: Config, s: State, i: Item): Result<Bytes, Error> {
    match Fetch(c, s, i)
    case Err(e) => Err(e)
    case Ok(src) =>
      if src.fails || i.size < 0 || |src.data| != i.size || c.sha(src.data) != i.digest then Err(Failed)
      else Ok(src.data)
  }

  function Exists(s: State, i: Item): bool {
    if i.name != "" && i.name !in s.names then false
    else i.digest in s.index || Key(i) in s.fallback
  }

  // ---- Writing ----

  function Wanted(i: Item): nat {
    if i.size < 0 then 0 else i.size
  }

  function Take(data: Bytes, n: nat): Bytes {
    if n < |data| then data[..n] else data
  }

  /** The bytes a verified copy writes before it ends or fails. */
  function Written(i: Item, src: Source, t: Trouble): Bytes {
    var read := Take(src.data, Wanted(i));
    if t.space.Some? then Take(read, t.space.value) else read
  }

  /** Whether the copy is complete and matches size and digest. */
  predicate Verified(c: Config, i: Item, src: Source, t: Trouble) {
    && !src.fails
    && |src.data| == Wanted(i)
    && c.sha(src.data) == i.digest
    && (t.space.Some? ==> |src.data| <= t.space.value)
  }

  datatype Saved = Saved(state: State, ok: bool)

  /** `saveFile` to an open file: the bytes go over the file's start, and the digest is indexed only once
      the copy is verified. */
  function SaveFile(c: Config, s: State, path: string, i: Item, src: Source, t: Trouble): Saved {
    var r := Write(s.nodes, At(c, path), Written(i, src, t), false);
    var nodes := if r.Ok? then r.value else s.nodes;
    if Verified(c, i, src, t) then Saved(s.(nodes := nodes, index := s.index[i.digest := path]), !t.close)
    else Saved(s.(nodes := nodes), false)
  }

  function PushFile(c: Config, s: State, target: string, i: Item, src: Source, t: Trouble): Saved {
    var dirs := MkdirAll(s.nodes, At(c, Dir(target)));
    if t.mkdir || dirs.Err? then Saved(s, false)
    else
      var touched := Write(dirs.value, At(c, target), [], false);
      if t.open || touched.Err? then Saved(s.(nodes := dirs.value), false)
      else
        var saved := SaveFile(c, s.(nodes := touched.value), target, i, src, t);
        Saved(saved.state, saved.ok && !t.chown)
  }

  ghost function PushDir(c: Config, s: State, target: string, i: Item, src: Source, t: Trouble): Saved {
    var dirs := MkdirAll(s.nodes, At(c, target));
    if t.mkdir || dirs.Err? then Saved(s, false)
    else
      var temp := Create(dirs.value, At(c, t.temp), File([]));
      if t.open || temp.Err? then Saved(s.(nodes := dirs.value), false)
      else
        var saved := SaveFile(c, s.(nodes := temp.value, tmp := s.tmp + {t.temp}), t.temp, i, src, t);
        if !saved.ok || c.decode(src.data).None? then Saved(saved.state, false)
        else
          var stream := c.decode(src.data).value;
          var e := Extract(saved.state.nodes, c.cwd, target, i.name, stream.headers);
          Saved(saved.state.(nodes := e.nodes), e.ok && !stream.torn && c.sums(src.data, i.checksum))
  }

  /** The default fallback: a size limit, then a verified read of the first `size` bytes. A manifest's links
      are read once it is stored, so one that cannot be read is stored and fails. */
  function FallbackPush(c: Config, s: State, i: Item, src: Source): Done {
    if i.size > c.fallbackLimit then Done(s, Some(Failed))
    else if Key(i) in s.fallback then Done(s, Some(AlreadyExists))
    else if i.size < 0 || |src.data| < i.size || c.sha(src.data[..i.size]) != i.digest then Done(s, Some(Failed))
    else
      var data := src.data[..i.size];
      Done(
        s.(fallback := s.fallback[Key(i) := data]),
        if IsManifest(i.mediaType) && c.links(i.mediaType, data).None? then Some(Failed) else None)
  }

  /** `push`. The error of `pushFile` is assigned to a variable of the inner block and never read, so a named
      file counts as pushed whether or not it was written; the error of `pushDir` is returned. */
  ghost function Put(c: Config, s: State, i: Item, src: Source, t: Trouble): Done {
    if i.name == "" then
      if c.ignoreNoName then Done(s, None) else FallbackPush(c, s, i, src)
    else if i.name in s.names then Done(s, Some(DuplicateName))
    else
      match ResolveWritePath(c, s.nodes, i.name)
      case Err(e) => Done(s, Some(e))
      case Ok(target) =>
        if i.unpack then
          var saved := PushDir(c, s, target, i, src, t);
          if saved.ok then Done(saved.state.(names := s.names + {i.name}), None) else Done(saved.state, Some(Failed))
        else if !i.parses then Done(s, Some(Failed))
        else Done(PushFile(c, s, target, i, src, t).state.(names := s.names + {i.name}), None)
  }

  /** `restoreDuplicates` over the successors found: content not found is passed over. */
  ghost function Restore(c: Config, s: State, items: seq<Item>, t: string -> Trouble): Done
    decreases |items|
  {
    if items == [] then Done(s, None)
    else
      var i := items[0];
      if i.name == "" || i.name in s.names then Restore(c, s, items[1..], t)
      else
        match Fetch(c, s, i.(name := ""))
        case Err(NotFound) => Restore(c, s, items[1..], t)
        case Err(e) => Done(s, Some(e))
        case Ok(src) =>
          var put := Put(c, s, i, src, t(i.name));
          if put.err.Some? && put.err.value != NotFound then put else Restore(c, put.state, items[1..], t)
  }

  /** The successors of what was pushed: read from the stored and verified content of a manifest. */
  function Successors(c: Config, s: State, i: Item): Result<seq<Item>, Error> {
    if !IsManifest(i.mediaType) then Ok([])
    else
      match FetchAll(c, s, i)
      case Err(e) => Err(e)
      case Ok(data) =>
        match c.links(i.mediaType, data)
        case None => Err(Failed)
        case Some(items) => Ok(items)
  }

  predicate IsManifest(mediaType: string) {
    mediaType in {
      "application/vnd.docker.distribution.manifest.v2+json",
      "application/vnd.docker.distribution.manifest.list.v2+json",
      "application/vnd.oci.image.manifest.v1+json",
      "application/vnd.oci.image.index.v1+json",
      "application/vnd.oci.artifact.manifest.v1+json"
    }
  }

  const COLLECTION := "application/vnd.uor.collection.manifest.v1+json"

  /** The manifests whose links the graph reads. */
  predicate InGraph(mediaType: string) {
    IsManifest(mediaType) || mediaType == COLLECTION
  }

  /** Why the graph refuses what was pushed, if it does: its manifest cannot be fetched or read, it or a link
      of it has attributes that cannot be read, or it links to itself. */
  function GraphError(c: Config, s: State, i: Item): Option<Error> {
    if !InGraph(i.mediaType) then if i.parses then None else Some(Failed)
    else
      match FetchAll(c, s, i)
      case Err(e) => Some(e)
      case Ok(data) =>
        match c.graphLinks(i.mediaType, data)
        case None => Some(Failed)
        case Some(items) => if Accepted(i, items) then None else Some(Failed)
  }

  predicate Accepted(i: Item, items: seq<Item>) {
    i.parses && forall k | 0 <= k < |items| :: items[k].parses && items[k].digest != i.digest
  }

  /** `Push` on an open store. */
  ghost function Push(c: Config, s: State, i: Item, src: Source, t: string -> Trouble): Done {
    if i.name == "" && c.ignoreNoName then Done(s, None)
    else
      var put := Put(c, s, i, src, t(i.name));
      if put.err.Some? then put
      else if c.forceCAS then Done(put.state, GraphError(c, put.state, i))
      else
        match Successors(c, put.state, i)
        case Err(e) => Done(put.state, Some(e))
        case Ok(items) =>
          var restored := Restore(c, put.state, items, t);
          if restored.err.Some? then restored else Done(restored.state, GraphError(c, restored.state, i))
  }

  // ---- Adding ----

  /** The new state, and the item made. */
  datatype Added = Added(state: State, result: Result<Item, Error>)

  function MediaType(given: string, default: string): string {
    if given == "" then default else given
  }

  const BLOB := "application/vnd.oci.image.layer.v1.tar"
  const BLOB_DIR := "application/vnd.oci.image.layer.v1.tar+gzip"

  /** `descriptorFromFile`: the file is indexed where it lies. A failing close comes after that. */
  function AddFile(c: Config, s: State, name: string, mediaType: string, path: string, data: Bytes, t: Trouble): Added {
    if t.open then Added(s, Err(Failed))
    else
      var s' := s.(index := s.index[c.sha(data) := path]);
      if t.close then Added(s', Err(Failed))
      else
        Added(
          s'.(names := s.names + {name}),
          Ok(Item(MediaType(mediaType, BLOB), c.sha(data), |data|, name, false, "", true)))
  }

  /** `descriptorFromDir`: the archive of what the walk found is written to a temporary file, which is
      indexed once it is complete. */
  function AddDir(c: Config, s: State, name: string, mediaType: string, tree: Tree, t: Trouble): Added {
    var temp := Create(s.nodes, At(c, t.temp), File([]));
    if t.open || temp.Err? then Added(s, Err(Failed))
    else
      var gz := c.encode(Listing(name, [], tree));
      var written := if t.space.Some? then Take(gz.data, t.space.value) else gz.data;
      var s' := s.(nodes := temp.value[At(c, t.temp) := File(written)], tmp := s.tmp + {t.temp});
      if |written| < |gz.data| then Added(s', Err(Failed))
      else
        var s'' := s'.(index := s.index[c.sha(gz.data) := t.temp]);
        if t.close then Added(s'', Err(Failed))
        else
          Added(
            s''.(names := s.names + {name}),
            Ok(Item(MediaType(mediaType, BLOB_DIR), c.sha(gz.data), |gz.data|, name, true, gz.checksum, true)))
  }

  /** Where what is added lies. */
  function AddedFrom(c: Config, name: string, path: string): Loc {
    At(c, AbsPath(c, if path == "" then name else path))
  }

  /** `Add`; when it is given a directory, `tree` is what the walk finds there. */
  function Add(c: Config, s: State, name: string, mediaType: string, path: string, t: Trouble, tree: Tree): Added {
    if name == "" then Added(s, Err(MissingName))
    else if name in s.names then Added(s, Err(DuplicateName))
    else
      var from := AbsPath(c, if path == "" then name else path);
      match Stat(c, s.nodes, At(c, from))
      case Ok(File(data)) => AddFile(c, s, name, mediaType, from, data, t)
      case Ok(Folder) => AddDir(c, s, name, mediaType, tree, t)
      case _ => Added(s, Err(Failed))
  }

  // ---- Closing ----

  /** What closing without error leaves: everything but the temporary files. */
  ghost predicate Cleared(c: Config, s: State, after: Nodes) {
    forall l | l in s.nodes || l in after ::
      if exists name :: name in s.tmp && At(c, name) == l then l !in after
      else l in s.nodes && l in after && after[l] == s.nodes[l]
  }
}
