/** `Apply`: a layer's blob is pushed to a new file store over the snapshot's mounted directory. */
module Applier {
  import opened GoStrings
  import opened Paths
  import opened Disk
  import opened Archive
  import opened RoundTrip
  import opened Mounts
  import opened StoreSpec
  import opened PushEffects
  import opened StoreLaws
  import opened StoreResults
  import opened LinkSafety
  import opened RestoreLaws
  import opened StoreCases
  import FileStore

  datatype Mount = Mount(kind: string, options: seq<string>)

  /** The settings of `file.New`, with everything else as in `c`. */
  function Settings(c: Config, root: string): Config {
    c.(workingDir := root, allowTraversal := false, disableOverwrite := false, forceCAS := false,
       ignoreNoName := false, fallbackLimit := 0x40_0000)
  }

  /** The directory that a single overlay or aufs mount writes to; otherwise the mounts are mounted. */
  function Direct(mounts: seq<Mount>, userNS: bool): Option<string> {
    if |mounts| != 1 then None
    else if mounts[0].kind == "overlay" then
      if userNS then None
      else
        match LastValue(mounts[0].options, UPPERDIR)
        case Some(upper) => if upper == "" then None else Some(upper)
        case None => None
    else if mounts[0].kind == "aufs" then
      match Read(Branches(mounts[0].options), "", [])
      case Ok(l) => Some(l.upper)
      case Err(_) => None
    else None
  }

  method ChooseRoot(mounts: seq<Mount>, userNS: bool) returns (r: Option<string>)
    ensures r == Direct(mounts, userNS)
  {
    if |mounts| == 1 && mounts[0].kind == "overlay" {
      if userNS {
        return None;
      }
      var parsed := GetOverlayPath(mounts[0].options);
      return if parsed.Ok? then Some(parsed.value.upper) else None;
    }
    if |mounts| == 1 && mounts[0].kind == "aufs" {
      var parsed := GetAufsPath(mounts[0].options);
      return if parsed.Ok? then Some(parsed.value.upper) else None;
    }
    return None;
  }

  /** Where a layer is applied, given where the mounts would be mounted. */
  function Root(mounts: seq<Mount>, userNS: bool, mounted: string): string {
    var direct := Direct(mounts, userNS);
    if direct.Some? then direct.value else mounted
  }

  /** A single mount that is written to directly, at this directory: an overlay outside a user namespace, at the
      last upper directory it names, or an aufs whose branches have the accepted form, at its upper one. */
  ghost predicate WritesTo(mounts: seq<Mount>, userNS: bool, upper: string) {
    && |mounts| == 1 && upper != ""
    && ((mounts[0].kind == "overlay" && !userNS && LastUpper(mounts[0].options, upper))
        || (mounts[0].kind == "aufs" && exists lower :: Padded(Branches(mounts[0].options), Layers(upper, lower))))
  }

  /** The last option that names an upper directory names this one. */
  ghost predicate LastUpper(options: seq<string>, upper: string) {
    exists i :: 0 <= i < |options| && LastUpperAt(options, upper, i)
  }

  ghost predicate LastUpperAt(options: seq<string>, upper: string, i: nat)
    requires i < |options|
  {
    options[i] == UPPERDIR + upper && forall j | i < j < |options| :: !HasPrefix(options[j], UPPERDIR)
  }

  ghost function Applied(c: Config, nodes: Nodes, root: string, blob: Item, src: Source, t: string -> Trouble): Done {
    Push(Settings(c, root), New(nodes), blob, src, t)
  }

  /** The digest returned is the one asked for, whatever was written. What is applied goes to the directory that a
      single mount writes to, and for all other mounts to where they are mounted. */
  method Apply(
    fs: FileSystem, c: Config, mounts: seq<Mount>, userNS: bool, mounted: string, blob: Item, src: Source,
    t: string -> Trouble) returns (digest: Option<Digest>)
    requires fs.Valid() && fs.cwd == c.cwd
    modifies fs
    ensures fs.Valid()
    ensures
      var done := Applied(c, old(fs.nodes), Root(mounts, userNS, mounted), blob, src, t);
      fs.nodes == done.state.nodes && digest == if done.err.None? then Some(blob.digest) else None
    ensures forall upper | WritesTo(mounts, userNS, upper) ::
              fs.nodes == Applied(c, old(fs.nodes), upper, blob, src, t).state.nodes
    ensures (forall upper :: !WritesTo(mounts, userNS, upper)) ==>
              fs.nodes == Applied(c, old(fs.nodes), mounted, blob, src, t).state.nodes
  {
    hide Push, Direct, WritesTo;
    RootExactly(mounts, userNS, mounted);
    var direct := ChooseRoot(mounts, userNS);
    var root := if direct.Some? then direct.value else mounted;
    var store := new FileStore.Store(Settings(c, root), fs);
    var err := store.Push(blob, src, t);
    return if err.None? then Some(blob.digest) else None;
  }

  /** Applying a layer, whatever its blob names, links or contains, changes nothing outside the snapshot's
      directory but temporary files. */
  lemma ApplyInside(
    c: Config, nodes: Nodes, root: string, blob: Item, src: Source, t: string -> Trouble, items: seq<Item>)
    requires IsAbs(c.cwd) && Rooted(nodes) && TempsApart(Settings(c, root), [blob] + items, t)
    requires
      var s := Settings(c, root);
      var found := Successors(s, Put(s, New(nodes), blob, src, t(blob.name)).state, blob);
      found.Ok? ==> found.value == items
    ensures
      var s := Settings(c, root);
      KeptOutside(s, nodes, Applied(c, nodes, root, blob, src, t).state.nodes, Temps(s, [blob] + items, t))
  {
    hide Push, Put, Successors, KeptOutside, Temps, TempsApart, Rooted;
    PushInside(Settings(c, root), New(nodes), blob, src, t, items);
  }

  /** Applying a layer makes no link when its names are relative and the snapshot's directory is absolute. */
  lemma ApplyMakesNoLinks(c: Config, nodes: Nodes, root: string, blob: Item, src: Source, t: string -> Trouble)
    requires IsAbs(root) && PushRelative(Settings(c, root), New(nodes), blob, src, t)
    ensures NoNewLinks(nodes, Applied(c, nodes, root, blob, src, t).state.nodes)
  {
    hide Push, PushRelative, NoNewLinks;
    PushMakesNoLinks(Settings(c, root), New(nodes), blob, src, t);
  }

  /** Nobody closes the store that a layer is pushed to: a layer that was unpacked leaves its archive behind, in a
      new file outside the place it was unpacked to. */
  lemma LayerLeavesArchive(c: Config, nodes: Nodes, root: string, blob: Item, src: Source, t: string -> Trouble)
    requires IsAbs(c.cwd) && Rooted(nodes) && blob.name != "" && blob.unpack && !InGraph(blob.mediaType)
    requires TempApart(Settings(c, root), blob.name, t(blob.name))
    requires Applied(c, nodes, root, blob, src, t).err.None?
    ensures
      var at, done := At(c, t(blob.name).temp), Applied(c, nodes, root, blob, src, t);
      && t(blob.name).temp in done.state.tmp
      && at !in nodes && at in done.state.nodes && done.state.nodes[at] == File(src.data)
  {
    hide Locate, Rel, Abs, AbsPath, ResolveWritePath, PushDir, PushFile, MkdirAll, Extract, Rooted, IsAbs, GraphError;
    var s, tr := Settings(c, root), t(blob.name);
    var at, target := At(c, tr.temp), Target(s, blob.name);
    ArchivePushed(s, New(nodes), blob, src, t);
    UnpackExactly(s, New(nodes), blob, src, tr);
    MkdirAllAdds(nodes, target);
    MkdirAllRooted(nodes, target);
    CreateTouches(MkdirAll(nodes, target).value, at, target, at);
    SavedRooted(MkdirAll(nodes, target).value, at, target, src.data);
    ExtractContained(
      Unpacking(s, New(nodes), blob, src, tr), c.cwd, AbsPath(s, blob.name), blob.name,
      c.decode(src.data).value.headers);
  }

  lemma ArchivePushed(c: Config, s: State, i: Item, src: Source, t: string -> Trouble)
    requires i.name != "" && !InGraph(i.mediaType) && Push(c, s, i, src, t).err.None? && i.name !in s.names
    ensures Put(c, s, i, src, t(i.name)).err.None? && ResolveWritePath(c, s.nodes, i.name).Ok?
    ensures Push(c, s, i, src, t).state == Put(c, s, i, src, t(i.name)).state
  {
    hide ResolveWritePath, PushDir, PushFile;
  }

  lemma SavedRooted(nodes: Nodes, at: Loc, target: Loc, data: Bytes)
    requires Rooted(nodes) && IsFolder(nodes, target) && Create(nodes, at, File([])).Ok?
    ensures Rooted(nodes[at := File(data)]) && IsFolder(nodes[at := File(data)], target)
  {
  }

  /** Whether a nameless blob is stored in the fallback: at most 4 MiB, and what was asked for. */
  predicate Kept(c: Config, blob: Item, src: Source) {
    0 <= blob.size <= 0x40_0000 && blob.size <= |src.data| && c.sha(src.data[..blob.size]) == blob.digest
  }

  /** A layer whose blob has no name and is no manifest with successors is applied without writing anything. It
      succeeds if and only if the blob is kept, its attributes can be read, and, for a collection manifest, the
      graph accepts its links. */
  lemma NamelessLayer(c: Config, nodes: Nodes, root: string, blob: Item, src: Source, t: string -> Trouble)
    requires blob.name == "" && !IsManifest(blob.mediaType)
    ensures
      var done := Applied(c, nodes, root, blob, src, t);
      && done.state.nodes == nodes
      && (done.err.None? <==>
            && Kept(c, blob, src) && blob.parses
            && (blob.mediaType == COLLECTION ==>
                  var links := c.graphLinks(COLLECTION, src.data[..blob.size]);
                  links.Some? && Accepted(blob, links.value)))
  {
    hide Rel, Abs, AbsPath, ResolveWritePath, PushDir, PushFile;
  }

  /** A nameless manifest: it succeeds if and only if it is kept, its successors can be read and restored, and
      the graph accepts its links. */
  lemma NamelessManifest(c: Config, nodes: Nodes, root: string, blob: Item, src: Source, t: string -> Trouble)
    requires blob.name == "" && IsManifest(blob.mediaType)
    ensures
      var s := Settings(c, root);
      var done := Applied(c, nodes, root, blob, src, t);
      done.err.None? <==>
        && Kept(c, blob, src)
        && var data := src.data[..blob.size];
           var stored := New(nodes).(fallback := map[Key(blob) := data]);
           var found := c.links(blob.mediaType, data);
           && found.Some?
           && var restored := Restore(s, stored, found.value, t);
              restored.err.None? && GraphError(s, restored.state, blob).None?
  {
    hide Restore, GraphError, Rel, Abs, AbsPath, ResolveWritePath, PushDir, PushFile, Locate;
    if Kept(c, blob, src) {
      assert New(nodes).fallback[Key(blob) := src.data[..blob.size]] == map[Key(blob) := src.data[..blob.size]];
    }
  }

  /** The links that the graph reads from a manifest: it and all of them can be read, and none leads to itself. */
  predicate Linked(blob: Item, links: Option<seq<Item>>) {
    links.Some? && blob.parses && forall i | i in links.value :: i.parses && i.digest != blob.digest
  }

  /** A nameless manifest none of whose named successors was stored, as with every layer that comes alone: what is
      missing is passed over, so it is applied if and only if it is kept and its links can be read. */
  lemma NamelessManifestAlone(
    c: Config, nodes: Nodes, root: string, blob: Item, src: Source, t: string -> Trouble)
    requires blob.name == "" && IsManifest(blob.mediaType)
    requires
      Kept(c, blob, src) ==>
        var found := c.links(blob.mediaType, src.data[..blob.size]);
        found.Some? ==> forall i | i in found.value :: i.name == "" || Key(i) != Key(blob)
    ensures
      var done := Applied(c, nodes, root, blob, src, t);
      && done.state.nodes == nodes
      && (done.err.None? <==>
            && Kept(c, blob, src)
            && var data := src.data[..blob.size];
               c.links(blob.mediaType, data).Some? && Linked(blob, c.graphLinks(blob.mediaType, data)))
  {
    hide Restore, Rel, Abs, AbsPath, ResolveWritePath, PushDir, PushFile, Locate;
    NamelessManifest(c, nodes, root, blob, src, t);
    var s := Settings(c, root);
    if Kept(c, blob, src) {
      var data := src.data[..blob.size];
      var stored := New(nodes).(fallback := map[Key(blob) := data]);
      var found := c.links(blob.mediaType, data);
      if found.Some? {
        RestoreNothing(s, stored, found.value, t);
        GraphReads(s, stored, blob, data);
      }
    }
  }

  /** The graph's verdict on a manifest that can be fetched. */
  lemma GraphReads(c: Config, s: State, blob: Item, data: Bytes)
    requires InGraph(blob.mediaType) && FetchAll(c, s, blob) == Ok(data)
    ensures GraphError(c, s, blob)
         == if Linked(blob, c.graphLinks(blob.mediaType, data)) then None else Some(Failed)
  {
    hide FetchAll;
  }

  /** The same under a name: once it is written and intact only its own links decide. */
  lemma NamedManifestAlone(c: Config, nodes: Nodes, root: string, blob: Item, src: Source, t: string -> Trouble)
    requires IsAbs(c.cwd) && blob.name != "" && !blob.unpack && blob.parses && IsManifest(blob.mediaType)
    requires Base(Settings(c, root)) <= Target(Settings(c, root), blob.name)
    requires FileWritten(Settings(c, root), New(nodes), blob, src, t(blob.name))
    requires Intact(Settings(c, root), nodes, blob, src)
    requires
      var found := c.links(blob.mediaType, src.data);
      found.Some? ==> forall i | i in found.value :: i.name == "" || i.name == blob.name || i.digest != blob.digest
    ensures Applied(c, nodes, root, blob, src, t).err
         == if c.links(blob.mediaType, src.data).Some? && Linked(blob, c.graphLinks(blob.mediaType, src.data)) then None
            else Some(Failed)
  {
    hide Locate, Rel, Abs, AbsPath, Put, FileWritten, ResolveWritePath, FetchAll, Restore, Intact, Base, Push;
    hide GraphError, Linked;
    var s := Settings(c, root);
    var put := Put(s, New(nodes), blob, src, t(blob.name)).state;
    NamedManifest(c, nodes, root, blob, src, t);
    ResolvesExactly(s, nodes, blob.name);
    PutShape(s, New(nodes), blob, src, t(blob.name));
    PutDigests(s, New(nodes), blob, src, t(blob.name));
    FetchPushed(s, nodes, blob, src, t(blob.name));
    LostWriteError(s, New(nodes), blob, src, t(blob.name));
    var found := c.links(blob.mediaType, src.data);
    if found.Some? {
      RestoreNothing(s, put, found.value, t);
      GraphReads(s, put, blob, src.data);
    }
  }

  /** A layer that is a plain file under a fresh name in the snapshot's directory: only the graph can still make
      applying it fail, so unless it is a collection manifest it is applied successfully even when it cannot be
      written; its content is there under its digest if and only if it was written. */
  lemma FileLayer(c: Config, nodes: Nodes, root: string, blob: Item, src: Source, t: string -> Trouble)
    requires IsAbs(c.cwd) && blob.name != "" && !blob.unpack && blob.parses && !IsManifest(blob.mediaType)
    requires Base(Settings(c, root)) <= Target(Settings(c, root), blob.name)
    ensures
      var done := Applied(c, nodes, root, blob, src, t);
      && done.err == GraphError(Settings(c, root), done.state, blob)
      && (blob.mediaType != COLLECTION ==> done.err.None?)
      && (Exists(done.state, blob) <==> FileWritten(Settings(c, root), New(nodes), blob, src, t(blob.name)))
  {
    hide Locate, Rel, Abs, AbsPath, Put, FileWritten, ResolveWritePath, FetchAll;
    var s := Settings(c, root);
    ResolvesExactly(s, nodes, blob.name);
    LostWriteError(s, New(nodes), blob, src, t(blob.name));
    PutShape(s, New(nodes), blob, src, t(blob.name));
  }

  /** A written file can be verified again: no longer file stood there, and the size asked for is one. */
  ghost predicate Intact(c: Config, nodes: Nodes, blob: Item, src: Source) {
    blob.size >= 0 && NotLonger(nodes, Target(c, blob.name), |src.data|)
  }

  /** What fetching finds of a plain file that was pushed to a new store: nothing when it was not written, its
      content when it is intact, and otherwise something that cannot be verified. */
  lemma FetchPushed(c: Config, nodes: Nodes, blob: Item, src: Source, t: Trouble)
    requires IsAbs(c.cwd) && blob.name != "" && !blob.unpack && blob.parses && ResolveWritePath(c, nodes, blob.name).Ok?
    ensures
      var put := Put(c, New(nodes), blob, src, t).state;
      FetchAll(c, put, blob)
      == if !FileWritten(c, New(nodes), blob, src, t) then Err(NotFound)
         else if Intact(c, nodes, blob, src) then Ok(src.data)
         else Err(Failed)
  {
    hide Locate, Dir, Rel, Abs, AbsPath, Put, Opened, ResolveWritePath;
    LostWriteError(c, New(nodes), blob, src, t);
    PutShape(c, New(nodes), blob, src, t);
    if FileWritten(c, New(nodes), blob, src, t) {
      LongerFile(c, New(nodes), blob, src, t);
      assert Verified(c, blob, src, t);
      NotLongerHere(nodes, Target(c, blob.name), |src.data|);
      WrittenNode(c, New(nodes), blob, src, t);
    }
  }

  lemma NotLongerHere(nodes: Nodes, at: Loc, size: int)
    ensures !NotLonger(nodes, at, size) ==>
              at in nodes && (nodes[at].Link? || (nodes[at].File? && |nodes[at].data| > size))
  {
  }

  /** What a written file's place holds: the link that stood there, or a file. */
  lemma WrittenNode(c: Config, s: State, i: Item, src: Source, t: Trouble)
    requires i.name != "" && !i.unpack && i.parses && i.name !in s.names
    requires ResolveWritePath(c, s.nodes, i.name).Ok? && FileWritten(c, s, i, src, t)
    ensures
      var at := Target(c, i.name);
      var after := Put(c, s, i, src, t).state.nodes;
      && at in after && (at in s.nodes && s.nodes[at].Link? ==> after[at] == s.nodes[at])
  {
    hide Locate, Dir, Rel, Abs, AbsPath;
    var path := AbsPath(c, i.name);
    MkdirLeaves(s.nodes, At(c, Dir(path)), At(c, path));
    var touched := Write(MkdirAll(s.nodes, At(c, Dir(path))).value, At(c, path), [], false).value;
    TouchKeeps(MkdirAll(s.nodes, At(c, Dir(path))).value, At(c, path));
    SaveOverlays(c, s.(nodes := touched), path, i, src, t);
  }

  /** A push of a named manifest reads it back, and its error is what comes of that. */
  lemma PushReads(c: Config, s: State, blob: Item, src: Source, t: string -> Trouble)
    requires blob.name != "" && !c.forceCAS && InGraph(blob.mediaType) && Put(c, s, blob, src, t(blob.name)).err.None?
    ensures
      var put := Put(c, s, blob, src, t(blob.name)).state;
      Push(c, s, blob, src, t).err
      == match FetchAll(c, put, blob)
         case Err(e) => Some(e)
         case Ok(data) =>
           if !IsManifest(blob.mediaType) then GraphError(c, put, blob)
           else
             match c.links(blob.mediaType, data)
             case None => Some(Failed)
             case Some(items) =>
               var restored := Restore(c, put, items, t);
               if restored.err.Some? then restored.err else GraphError(c, restored.state, blob)
  {
    hide Put, FetchAll, IsManifest, Accepted;
  }

  /** A layer that is a named manifest, with successors or a collection's: it fails as missing when it was not
      written and as damaged when it is not intact; otherwise the successors and the graph decide. */
  lemma NamedManifest(c: Config, nodes: Nodes, root: string, blob: Item, src: Source, t: string -> Trouble)
    requires IsAbs(c.cwd) && blob.name != "" && !blob.unpack && blob.parses && InGraph(blob.mediaType)
    requires Base(Settings(c, root)) <= Target(Settings(c, root), blob.name)
    ensures
      var s := Settings(c, root);
      var done := Applied(c, nodes, root, blob, src, t);
      var put := Put(s, New(nodes), blob, src, t(blob.name)).state;
      && (!FileWritten(s, New(nodes), blob, src, t(blob.name)) ==> done.err == Some(NotFound))
      && (FileWritten(s, New(nodes), blob, src, t(blob.name)) ==>
            if !Intact(s, nodes, blob, src) then done.err == Some(Failed)
            else if !IsManifest(blob.mediaType) then done.err == GraphError(s, put, blob)
            else
              match c.links(blob.mediaType, src.data)
              case None => done.err == Some(Failed)
              case Some(items) =>
                var restored := Restore(s, put, items, t);
                done.err == if restored.err.Some? then restored.err else GraphError(s, restored.state, blob))
  {
    hide Locate, Rel, Abs, AbsPath, Put, FileWritten, ResolveWritePath, FetchAll, Restore, Intact, Base, Push;
    hide GraphError, IsManifest, InGraph;
    var s := Settings(c, root);
    ResolvesExactly(s, nodes, blob.name);
    LostWriteError(s, New(nodes), blob, src, t(blob.name));
    FetchPushed(s, nodes, blob, src, t(blob.name));
    PushReads(s, New(nodes), blob, src, t);
  }

  // ---- The directory written to ----

  /** Where a layer is applied: only a single overlay or aufs mount is ever written to directly. */
  lemma RootExactly(mounts: seq<Mount>, userNS: bool, mounted: string)
    ensures forall upper :: WritesTo(mounts, userNS, upper) <==> Direct(mounts, userNS) == Some(upper)
    ensures forall upper | WritesTo(mounts, userNS, upper) :: Root(mounts, userNS, mounted) == upper
    ensures (forall upper :: !WritesTo(mounts, userNS, upper)) ==> Root(mounts, userNS, mounted) == mounted
  {
    hide LastUpper, Padded;
    forall upper ensures WritesTo(mounts, userNS, upper) <==> Direct(mounts, userNS) == Some(upper) {
      if |mounts| == 1 && mounts[0].kind == "overlay" {
        LastUpperExactly(mounts[0].options, upper);
      } else if |mounts| == 1 && mounts[0].kind == "aufs" {
        assert mounts == [Mount("aufs", mounts[0].options)];
        AufsDirect(mounts[0].options, userNS, upper);
      }
    }
  }

  lemma {:induction false} LastUpperExactly(options: seq<string>, upper: string)
    ensures LastUpper(options, upper) <==> LastValue(options, UPPERDIR) == Some(upper)
    decreases |options|
  {
    if options != [] {
      var n := |options| - 1;
      var front, last := options[..n], options[n];
      LastUpperExactly(front, upper);
      if HasPrefix(last, UPPERDIR) {
        assert last == UPPERDIR + TrimPrefix(last, UPPERDIR);
        assert TrimPrefix(UPPERDIR + upper, UPPERDIR) == upper;
        if last == UPPERDIR + upper {
          assert LastUpperAt(options, upper, n);
        }
      } else {
        if LastUpper(front, upper) {
          var i :| 0 <= i < |front| && LastUpperAt(front, upper, i);
          assert LastUpperAt(options, upper, i);
        }
        if LastUpper(options, upper) {
          var i :| 0 <= i < |options| && LastUpperAt(options, upper, i);
          assert HasPrefix(UPPERDIR + upper, UPPERDIR);
          assert LastUpperAt(front, upper, i);
        }
      }
    }
  }

  /** A single aufs mount is written directly exactly when its branches are the documented ones, after any
      number of bare `=rw`. */
  lemma AufsDirect(options: seq<string>, userNS: bool, upper: string)
    ensures Direct([Mount("aufs", options)], userNS) == Some(upper)
       <==> upper != "" && exists lower :: Padded(Branches(options), Layers(upper, lower))
  {
    var mounts := [Mount("aufs", options)];
    var parsed := Read(Branches(options), "", []);
    if parsed.Ok? {
      ReadExactly(Branches(options), parsed.value);
    }
    forall lower
      ensures parsed == Ok(Layers(upper, lower)) <==> upper != "" && Padded(Branches(options), Layers(upper, lower))
    {
      ReadExactly(Branches(options), Layers(upper, lower));
    }
    if Direct(mounts, userNS) == Some(upper) {
      assert parsed == Ok(Layers(upper, parsed.value.lower));
    }
  }

  /** The options containerd writes for an aufs mount lead to its upper directory. */
  lemma AufsUpper(l: Layers, userNS: bool)
    requires l.upper != "" && ':' !in l.upper && forall s | s in l.lower :: ':' !in s
    ensures Direct([Mount("aufs", [Print(l)])], userNS) == Some(l.upper)
  {
    assert BrAt([Print(l)], 0, Join(Canonical(l), ':'));
    AufsRoundTrip([Print(l)], l);
  }

  /** The last upper directory of a single overlay mount is written to, outside a user namespace. */
  lemma OverlayUpper(before: seq<string>, upper: string, after: seq<string>, userNS: bool)
    requires upper != "" && forall o | o in after :: !HasPrefix(o, UPPERDIR)
    ensures Direct([Mount("overlay", before + [UPPERDIR + upper] + after)], userNS)
         == if userNS then None else Some(upper)
  {
    LastIs(before, upper, after);
  }

  lemma {:induction false} LastIs(before: seq<string>, upper: string, after: seq<string>)
    requires forall o | o in after :: !HasPrefix(o, UPPERDIR)
    ensures LastValue(before + [UPPERDIR + upper] + after, UPPERDIR) == Some(upper)
  {
    var options := before + [UPPERDIR + upper] + after;
    if after == [] {
      assert options[|options| - 1] == UPPERDIR + upper;
    } else {
      var front := after[..|after| - 1];
      assert options[..|options| - 1] == before + [UPPERDIR + upper] + front;
      assert options[|options| - 1] == after[|after| - 1] && after[|after| - 1] in after;
      LastIs(before, upper, front);
    }
  }
}
