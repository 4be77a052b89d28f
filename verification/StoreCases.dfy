/** Each way a store operation can go, in terms of what is asked for, what stands where, and what fails. */
module StoreCases {
  import opened GoStrings
  import opened Paths
  import opened Disk
  import opened Archive
  import opened RoundTrip
  import opened StoreSpec
  import opened PushEffects
  import opened StoreLaws

  // ---- Places ----

  /** An absolute name is its own place, and a relative one lies below the working directory. */
  lemma TargetExactly(c: Config, name: string, comps: Loc)
    ensures IsAbs(name) ==> Target(c, name) == Parse(name).comps
    ensures AllPlain(comps) ==> Target(c, RelPath(comps)) == Base(c) + comps
  {
    hide Parse, RelPath, JoinPath;
    if AllPlain(comps) {
      ParseRelPath(comps);
      hide Locate;
      LocateJoin(c.cwd, c.workingDir, comps);
    }
  }

  /** With overwriting disallowed a name is refused for what stands there, or for a file on its way; a link counts as
      what it leads to. */
  lemma OverwriteTest(c: Config, nodes: Nodes, name: string)
    requires IsAbs(c.cwd) && c.disableOverwrite && (c.allowTraversal || Base(c) <= Target(c, name))
    ensures
      var at, r := Target(c, name), ResolveWritePath(c, nodes, name);
      && (at in nodes && !nodes[at].Link? ==> r == Err(OverwriteDisallowed))
      && (at in nodes && nodes[at].Link? ==>
            && (r.Ok? <==> c.stat(nodes, at) == Err(NotExist))
            && (r == Err(OverwriteDisallowed) <==> c.stat(nodes, at).Ok?))
      && (at !in nodes ==>
            (r.Ok? <==> forall k | 0 <= k < |at| && at[..k] in nodes :: !nodes[at[..k]].File?))
  {
    hide Locate, AbsPath, Rel, Abs, ClimbsOut;
    ResolvesExactly(c, nodes, name);
  }

  // ---- Fetching ----

  /** What is fetched: by the index if it has the digest, and otherwise from the fallback. A name that does not exist
      hides both. */
  lemma FetchCases(c: Config, s: State, i: Item)
    ensures
      var r := Fetch(c, s, i);
      if i.name != "" && i.name !in s.names then r == Err(NotFound)
      else if i.digest in s.index then
        var at := At(c, s.index[i.digest]);
        && (at in s.nodes && s.nodes[at].File? ==> r == Ok(Source(s.nodes[at].data, false)))
        && (at in s.nodes && s.nodes[at].Folder? ==> r.Ok? && r.value.fails && r.value.data == [])
        && (at in s.nodes && s.nodes[at].Link? ==> r == Err(Failed))
        && (at !in s.nodes ==>
              r == Err(if exists k | 0 <= k < |at| :: at[..k] in s.nodes && s.nodes[at[..k]].File? then Failed
                       else NotFound))
      else if CasKey(i.mediaType, i.digest, i.size) in s.fallback then
        r == Ok(Source(s.fallback[CasKey(i.mediaType, i.digest, i.size)], false))
      else r == Err(NotFound)
  {
    hide Locate;
  }

  /** Fetching everything succeeds exactly when what is there has the size and the digest asked for. */
  lemma FetchAllExactly(c: Config, s: State, i: Item, data: Bytes)
    ensures FetchAll(c, s, i) == Ok(data)
       <==> Fetch(c, s, i) == Ok(Source(data, false)) && |data| == i.size && c.sha(data) == i.digest
  {
    hide Fetch;
  }

  // ---- Writing a file ----

  /** The content is all there: as long as asked for, with the right digest, and it fits. */
  predicate Whole(c: Config, i: Item, src: Source, t: Trouble) {
    && !src.fails && |src.data| == (if i.size < 0 then 0 else i.size) && c.sha(src.data) == i.digest
    && (t.space.None? || |src.data| <= t.space.value)
  }

  /** The directory of a target: one step above it, unless the name ends in dots. */
  function DirOfTarget(c: Config, name: string): Loc {
    At(c, Dir(AbsPath(c, name)))
  }

  /** Whether the file of a name is opened: nothing but folders on the way to its directory, and none in its own
      place. */
  lemma OpenedExactly(c: Config, s: State, i: Item, t: Trouble)
    requires Rooted(s.nodes)
    ensures
      var dir, at := DirOfTarget(c, i.name), Target(c, i.name);
      Opened(c, s, i, t)
      <==> && !t.mkdir && !t.open && !(at <= dir) && !IsFolder(s.nodes, at)
           && forall k | 0 <= k <= |dir| && dir[..k] in s.nodes :: s.nodes[dir[..k]] == Folder
  {
    hide Locate, Dir, AbsPath, MkdirAll;
    var dir, at := DirOfTarget(c, i.name), Target(c, i.name);
    MkdirAllSucceeds(s.nodes, dir);
    LocateDir(c.cwd, AbsPath(c, i.name));
    if MkdirAll(s.nodes, dir).Ok? {
      MkdirAllAdds(s.nodes, dir);
      MkdirAllRooted(s.nodes, dir);
      if at <= dir {
        FolderOnTheWay(MkdirAll(s.nodes, dir).value, dir, at);
      }
    }
  }

  lemma FolderOnTheWay(nodes: Nodes, dir: Loc, at: Loc)
    requires Rooted(nodes) && IsFolder(nodes, dir) && at <= dir
    ensures IsFolder(nodes, at)
  {
    if at != dir {
      AboveIsFolder(nodes, dir, at);
    }
  }

  /** Whether the file of a name is written and its digest indexed. */
  lemma WrittenExactly(c: Config, s: State, i: Item, src: Source, t: Trouble)
    ensures FileWritten(c, s, i, src, t) <==> Opened(c, s, i, t) && Whole(c, i, src, t)
  {
    hide Opened;
  }

  /** A copy to a new file leaves the bytes it came to, whether or not they are all of the content. */
  lemma CopyLeaves(c: Config, s: State, i: Item, src: Source, t: Trouble)
    requires CopiesToFile(c, s, i, t) && Target(c, i.name) !in s.nodes
    ensures
      var at, after, w := Target(c, i.name), Put(c, s, i, src, t).state, Written(i, src, t);
      && at in after.nodes && after.nodes[at] == File(w)
      && w <= src.data && (i.size < 0 ==> w == [])
      && (i.size >= 0 ==>
            |w| == Min(Min(|src.data|, i.size), if t.space.Some? then t.space.value else |src.data|))
  {
    hide Locate, Dir, Rel, Abs, AbsPath, Verified;
    var dir, at := DirOfTarget(c, i.name), Target(c, i.name);
    MkdirLeaves(s.nodes, dir, at);
  }

  function Min(a: int, b: int): int {
    if a <= b then a else b
  }

  /** A file whose attributes cannot be read is refused, and nothing changes; an archive is not asked for them. */
  lemma UnreadableRefused(c: Config, s: State, i: Item, src: Source, t: Trouble)
    requires i.name != "" && i.name !in s.names && !i.unpack && !i.parses
    ensures Put(c, s, i, src, t).err.Some? && Put(c, s, i, src, t).state == s
  {
    hide ResolveWritePath;
  }

  // ---- Unpacking ----

  /** Whether an archive's temporary file comes to be written: the target directory can be made, and the file is new
      in an existing folder. */
  predicate Stored(c: Config, s: State, i: Item, src: Source, t: Trouble) {
    var dirs := MkdirAll(s.nodes, Target(c, i.name));
    && !t.mkdir && dirs.Ok? && !t.open && Create(dirs.value, At(c, t.temp), File([])).Ok?
    && Whole(c, i, src, t)
  }

  /** The tree in which a stored archive is unpacked. */
  function Unpacking(c: Config, s: State, i: Item, src: Source, t: Trouble): Nodes
    requires Stored(c, s, i, src, t)
  {
    MkdirAll(s.nodes, Target(c, i.name)).value[At(c, t.temp) := File(src.data)]
  }

  /** An unpacking push succeeds exactly when the archive is stored and closed, can be read to its end, every entry
      can be extracted, and the checksum is right. It is indexed as soon as it is stored, whatever comes then; where
      unpacking fails what was extracted stays, and the name stays free. */
  lemma UnpackExactly(c: Config, s: State, i: Item, src: Source, t: Trouble)
    requires i.name != "" && i.unpack && i.name !in s.names && ResolveWritePath(c, s.nodes, i.name).Ok?
    ensures
      var put := Put(c, s, i, src, t);
      if !Stored(c, s, i, src, t) then put.err == Some(Failed) && put.state.index == s.index
      else
        && put.state.index == s.index[i.digest := t.temp] && t.temp in put.state.tmp
        && if t.close || c.decode(src.data).None? then
             put.err == Some(Failed) && put.state.nodes == Unpacking(c, s, i, src, t)
           else
             var stream := c.decode(src.data).value;
             var e := Extract(Unpacking(c, s, i, src, t), c.cwd, AbsPath(c, i.name), i.name, stream.headers);
             && put.state.nodes == e.nodes
             && put.err == if e.ok && !stream.torn && c.sums(src.data, i.checksum) then None else Some(Failed)
  {
    hide Locate, Rel, Abs, AbsPath, ResolveWritePath, Extract, MkdirAll;
    ResolvesToPath(c, s.nodes, i.name);
    var dirs := MkdirAll(s.nodes, Target(c, i.name));
    if dirs.Ok? && Create(dirs.value, At(c, t.temp), File([])).Ok? {
      var temp := Create(dirs.value, At(c, t.temp), File([])).value;
      if Whole(c, i, src, t) {
        VerifiedWritten(c, i, src, t);
        assert temp[At(c, t.temp) := File(src.data)] == dirs.value[At(c, t.temp) := File(src.data)];
      }
    }
  }

  // ---- Content without a name ----

  /** What the fallback takes: content that is not too large, not there yet, and begins with what was asked for. A
      manifest is taken before its links turn out not to be readable. */
  lemma FallbackCases(c: Config, s: State, i: Item, src: Source, t: Trouble)
    requires i.name == "" && !c.ignoreNoName
    ensures
      var put, key := Put(c, s, i, src, t), CasKey(i.mediaType, i.digest, i.size);
      if i.size > c.fallbackLimit then put == Done(s, Some(Failed))
      else if key in s.fallback then put == Done(s, Some(AlreadyExists))
      else if i.size < 0 || |src.data| < i.size || c.sha(src.data[..i.size]) != i.digest then
        put == Done(s, Some(Failed))
      else
        && put.state.fallback == s.fallback[key := src.data[..i.size]]
        && put.state.nodes == s.nodes && put.state.index == s.index && put.state.names == s.names
        && (put.err == if IsManifest(i.mediaType) && c.links(i.mediaType, src.data[..i.size]).None? then Some(Failed)
                       else None)
  {
  }

  /** Pushing the same content without a name again fails and changes nothing. */
  lemma FallbackTwice(c: Config, s: State, i: Item, src: Source, src': Source, t: Trouble)
    requires i.name == "" && !c.ignoreNoName && Put(c, s, i, src, t).err.None?
    ensures
      var s' := Put(c, s, i, src, t).state;
      Put(c, s', i, src', t) == Done(s', Some(AlreadyExists))
  {
  }

  // ---- Options of a push ----

  /** With names required, nameless content is dropped and the push succeeds. */
  lemma NamelessIgnored(c: Config, s: State, i: Item, src: Source, t: string -> Trouble)
    requires i.name == "" && c.ignoreNoName
    ensures Push(c, s, i, src, t) == Done(s, None)
  {
  }

  /** With content kept by digest alone nothing is restored. */
  lemma NothingRestored(c: Config, s: State, i: Item, src: Source, t: string -> Trouble)
    requires c.forceCAS
    ensures Push(c, s, i, src, t).state == Put(c, s, i, src, t(i.name)).state
  {
    hide PushDir, PushFile, ResolveWritePath, GraphError;
  }

  // ---- Adding ----

  /** What becomes of an add, by what stands at the given path, or at the name where no path is given. */
  lemma AddCases(c: Config, s: State, name: string, mediaType: string, path: string, t: Trouble, tree: Tree)
    ensures
      var at, r := Target(c, if path == "" then name else path), Add(c, s, name, mediaType, path, t, tree);
      && (name == "" <==> r.result == Err(MissingName))
      && (name != "" && name in s.names <==> r.result == Err(DuplicateName))
      && (r.result.Err? ==> r.state.names == s.names)
      && (name == "" || name in s.names || Stat(c, s.nodes, at).Err? ==> r.result.Err? && r.state == s)
  {
    hide Locate, AbsPath, Listing;
  }

  /** Adding a file: it is indexed where it lies, and the item made has its digest and size. Where closing it fails it
      is indexed all the same, and the name stays free. */
  lemma AddedFile(c: Config, s: State, name: string, mediaType: string, path: string, t: Trouble, tree: Tree)
    requires name != "" && name !in s.names
    requires
      var at := Target(c, if path == "" then name else path);
      at in s.nodes && s.nodes[at].File?
    ensures
      var at, r := Target(c, if path == "" then name else path), Add(c, s, name, mediaType, path, t, tree);
      var data := s.nodes[at].data;
      && r.state.nodes == s.nodes
      && (r.result.Ok? <==> !t.open && !t.close)
      && (t.open ==> r.state == s)
      && (!t.open ==>
            && r.state.index.Keys == s.index.Keys + {c.sha(data)} && At(c, r.state.index[c.sha(data)]) == at
            && forall d | d in s.index && d != c.sha(data) :: r.state.index[d] == s.index[d])
      && (r.result.Ok? ==>
            var i := r.result.value;
            && r.state.names == s.names + {name} && Fetch(c, r.state, i) == Ok(Source(data, false))
            && i.name == name && i.digest == c.sha(data) && i.size == |data| && !i.unpack && i.parses
            && i.mediaType == if mediaType == "" then "application/vnd.oci.image.layer.v1.tar" else mediaType)
  {
    hide Locate, AbsPath, Listing;
  }
}
