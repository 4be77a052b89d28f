/** What one push does to the tree and to the index, whatever fails on the way. */
module PushEffects {
  import opened GoStrings
  import opened Paths
  import opened Disk
  import opened Archive
  import opened RoundTrip
  import opened StoreSpec

  // ---- Where a push writes ----

  predicate Apart(a: Loc, b: Loc) {
    !(a <= b) && !(b <= a)
  }

  /** Nothing disappears, and everything stays the kind of node it is. */
  ghost predicate NodesStay(before: Nodes, after: Nodes) {
    forall l | l in before ::
      && l in after
      && (before[l].File? <==> after[l].File?)
      && (before[l].Folder? <==> after[l].Folder?)
  }

  /** The tree stays rooted, nodes stay, and outside `at` and `temp` nothing changes but that missing folders
      above `at` may appear. */
  ghost predicate Touches(before: Nodes, after: Nodes, at: Loc, temp: Loc) {
    && Rooted(after)
    && NodesStay(before, after)
    && (forall l | !(at <= l) && l != temp && l in before :: after[l] == before[l])
    && (forall l | !(at <= l) && l != temp && l in after && l !in before :: l < at && after[l] == Folder)
  }

  lemma TouchesTrans(a: Nodes, b: Nodes, c: Nodes, at: Loc, temp: Loc)
    requires Touches(a, b, at, temp) && Touches(b, c, at, temp)
    ensures Touches(a, c, at, temp)
  {
  }

  lemma TouchesRefl(a: Nodes, at: Loc, temp: Loc)
    requires Rooted(a)
    ensures Touches(a, a, at, temp)
  {
  }

  /** Making a directory near a place. */
  lemma MkdirTouches(nodes: Nodes, l: Loc, at: Loc, temp: Loc)
    requires Rooted(nodes) && MkdirAll(nodes, l).Ok? && (l <= at || at <= l)
    ensures Touches(nodes, MkdirAll(nodes, l).value, at, temp)
  {
    var after := MkdirAll(nodes, l).value;
    MkdirAllRooted(nodes, l);
    MkdirAllAdds(nodes, l);
    forall m | !(at <= m) && m in after && m !in nodes ensures m < at {
      Comparable(m, l, at);
    }
  }

  /** Prefixes of comparable locations are comparable. */
  lemma Comparable(m: Loc, l: Loc, at: Loc)
    requires m <= l && (l <= at || at <= l)
    ensures m <= at || at <= m
  {
    if at <= l && |m| <= |at| {
      assert m == l[..|m|] && at[..|m|] == l[..|m|];
    } else if at <= l {
      assert at == l[..|at|] && m[..|at|] == l[..|at|];
    }
  }

  lemma WriteTouches(nodes: Nodes, l: Loc, data: Bytes, at: Loc, temp: Loc)
    requires Rooted(nodes) && Write(nodes, l, data, false).Ok? && (l == at || l == temp)
    ensures Touches(nodes, Write(nodes, l, data, false).value, at, temp)
  {
    WriteKeepsRooted(nodes, l, data, false);
  }

  /** The directory that `pushFile` ensures is the target itself or next to it on one path. */
  lemma DirNear(cwd: string, path: string)
    ensures
      var d, at := Locate(cwd, Dir(path)), Locate(cwd, path);
      d <= at || at <= d
  {
    hide Locate, Dir;
    LocateDir(cwd, path);
  }

  lemma SaveFileTouches(c: Config, s: State, path: string, i: Item, src: Source, t: Trouble, at: Loc, temp: Loc)
    requires Rooted(s.nodes) && (At(c, path) == at || At(c, path) == temp)
    ensures Touches(s.nodes, SaveFile(c, s, path, i, src, t).state.nodes, at, temp)
  {
    hide Locate, Touches;
    TouchesRefl(s.nodes, at, temp);
    if Write(s.nodes, At(c, path), Written(i, src, t), false).Ok? {
      WriteTouches(s.nodes, At(c, path), Written(i, src, t), at, temp);
    }
  }

  lemma PushFileTouches(c: Config, s: State, target: string, i: Item, src: Source, t: Trouble, temp: Loc)
    requires Rooted(s.nodes)
    ensures Touches(s.nodes, PushFile(c, s, target, i, src, t).state.nodes, At(c, target), temp)
  {
    hide Locate, Touches, Dir, SaveFile;
    var at := At(c, target);
    TouchesRefl(s.nodes, at, temp);
    var dirs := MkdirAll(s.nodes, At(c, Dir(target)));
    if !t.mkdir && dirs.Ok? {
      DirNear(c.cwd, target);
      MkdirTouches(s.nodes, At(c, Dir(target)), at, temp);
      TouchesRooted(s.nodes, dirs.value, at, temp);
      var touched := Write(dirs.value, at, [], false);
      if !t.open && touched.Ok? {
        WriteTouches(dirs.value, at, [], at, temp);
        TouchesTrans(s.nodes, dirs.value, touched.value, at, temp);
        TouchesRooted(s.nodes, touched.value, at, temp);
        var s' := s.(nodes := touched.value);
        SaveFileTouches(c, s', target, i, src, t, at, temp);
        TouchesTrans(s.nodes, touched.value, SaveFile(c, s', target, i, src, t).state.nodes, at, temp);
      }
    }
  }

  lemma TouchesRooted(before: Nodes, after: Nodes, at: Loc, temp: Loc)
    requires Touches(before, after, at, temp)
    ensures Rooted(after)
  {
  }

  lemma PushDirTouches(c: Config, s: State, target: string, i: Item, src: Source, t: Trouble)
    requires Rooted(s.nodes) && IsAbs(c.cwd) && Apart(At(c, t.temp), At(c, target))
    ensures Touches(s.nodes, PushDir(c, s, target, i, src, t).state.nodes, At(c, target), At(c, t.temp))
  {
    hide Locate, Touches, SaveFile, Extract;
    var at, tmp := At(c, target), At(c, t.temp);
    TouchesRefl(s.nodes, at, tmp);
    var dirs := MkdirAll(s.nodes, at);
    if !t.mkdir && dirs.Ok? {
      MkdirTouches(s.nodes, at, at, tmp);
      TouchesRooted(s.nodes, dirs.value, at, tmp);
      MkdirAllAdds(s.nodes, at);
      var temp := Create(dirs.value, tmp, File([]));
      if !t.open && temp.Ok? {
        CreateTouches(dirs.value, tmp, at, tmp);
        TouchesTrans(s.nodes, dirs.value, temp.value, at, tmp);
        TouchesRooted(s.nodes, temp.value, at, tmp);
        var s' := s.(nodes := temp.value, tmp := s.tmp + {t.temp});
        var saved := SaveFile(c, s', t.temp, i, src, t);
        SaveFileTouches(c, s', t.temp, i, src, t, at, tmp);
        TouchesTrans(s.nodes, temp.value, saved.state.nodes, at, tmp);
        TouchesRooted(s.nodes, saved.state.nodes, at, tmp);
        if saved.ok && c.decode(src.data).Some? {
          var hs := c.decode(src.data).value.headers;
          SaveFileFolder(c, s', i, src, t, at);
          ExtractTouches(c, saved.state.nodes, target, i.name, hs, tmp);
          var after := Extract(saved.state.nodes, c.cwd, target, i.name, hs).nodes;
          TouchesTrans(s.nodes, saved.state.nodes, after, at, tmp);
        }
      }
    }
  }

  lemma CreateTouches(nodes: Nodes, l: Loc, at: Loc, temp: Loc)
    requires Rooted(nodes) && Create(nodes, l, File([])).Ok? && l == temp
    ensures Touches(nodes, Create(nodes, l, File([])).value, at, temp)
    ensures forall m | IsFolder(nodes, m) :: IsFolder(Create(nodes, l, File([])).value, m)
  {
  }

  /** Writing the temporary file leaves the target folder. */
  lemma SaveFileFolder(c: Config, s: State, i: Item, src: Source, t: Trouble, at: Loc)
    requires IsFolder(s.nodes, at)
    ensures IsFolder(SaveFile(c, s, t.temp, i, src, t).state.nodes, at)
  {
  }

  lemma {:induction false} ExtractNodesStay(nodes: Nodes, cwd: string, dir: string, prefix: string, hs: seq<Header>)
    requires IsAbs(cwd) && Rooted(nodes)
    ensures NodesStay(nodes, Extract(nodes, cwd, dir, prefix, hs).nodes)
    decreases |hs|
  {
    hide ExtractOne, Rooted;
    if hs != [] && ExtractOne(nodes, cwd, dir, prefix, hs[0]).Some? {
      ExtractOneNodesStay(nodes, cwd, dir, prefix, hs[0]);
      ExtractNodesStay(ExtractOne(nodes, cwd, dir, prefix, hs[0]).value, cwd, dir, prefix, hs[1..]);
    }
  }

  lemma ExtractOneNodesStay(nodes: Nodes, cwd: string, dir: string, prefix: string, h: Header)
    requires Rooted(nodes) && ExtractOne(nodes, cwd, dir, prefix, h).Some?
    ensures NodesStay(nodes, ExtractOne(nodes, cwd, dir, prefix, h).value)
    ensures Rooted(ExtractOne(nodes, cwd, dir, prefix, h).value)
  {
    hide Locate, JoinPath, Rel, Parse, Clear, CheckLink;
    var at := Locate(cwd, JoinPath(dir, CheckPath(nodes, cwd, dir, prefix, h.name).value));
    if h.kind.Directory? {
      MkdirAllAdds(nodes, at);
      MkdirAllRooted(nodes, at);
    }
  }

  lemma ExtractTouches(c: Config, nodes: Nodes, target: string, prefix: string, hs: seq<Header>, temp: Loc)
    requires Rooted(nodes) && IsAbs(c.cwd) && IsFolder(nodes, At(c, target))
    ensures Touches(nodes, Extract(nodes, c.cwd, target, prefix, hs).nodes, At(c, target), temp)
  {
    hide Locate, Extract;
    ExtractContained(nodes, c.cwd, target, prefix, hs);
    ExtractNodesStay(nodes, c.cwd, target, prefix, hs);
  }

  /** Where the temporary file's name is taken nothing happens to what has it. */
  lemma PushDirTempTaken(c: Config, s: State, target: string, i: Item, src: Source, t: Trouble)
    requires At(c, t.temp) in s.nodes
    ensures
      var after := PushDir(c, s, target, i, src, t).state.nodes;
      At(c, t.temp) in after && after[At(c, t.temp)] == s.nodes[At(c, t.temp)]
    ensures PushDir(c, s, target, i, src, t).state.index == s.index
  {
    hide Locate;
    if MkdirAll(s.nodes, At(c, target)).Ok? {
      MkdirAllAdds(s.nodes, At(c, target));
    }
  }

  /** What a push does to the tree: everything that was there and is not the target or below it stays, and
      nothing new appears elsewhere but the temporary file and missing folders above the target. */
  ghost predicate Footprint(before: Nodes, after: Nodes, at: Loc, temp: Loc) {
    && Rooted(after)
    && NodesStay(before, after)
    && (forall l | !(at <= l) && l in before :: after[l] == before[l])
    && (forall l | !(at <= l) && l in after && l !in before :: l == temp || (l < at && after[l] == Folder))
  }

  lemma PutFootprint(c: Config, s: State, i: Item, src: Source, t: Trouble)
    requires Rooted(s.nodes) && IsAbs(c.cwd)
    requires i.name != "" ==> Apart(At(c, t.temp), Target(c, i.name))
    ensures Footprint(s.nodes, Put(c, s, i, src, t).state.nodes, Target(c, i.name), At(c, t.temp))
  {
    hide Locate, PushDir, PushFile, AbsPath, Rel, Abs;
    var at, temp := Target(c, i.name), At(c, t.temp);
    var after := Put(c, s, i, src, t).state.nodes;
    if after != s.nodes {
      var target := AbsPath(c, i.name);
      if i.unpack {
        PushDirTouches(c, s, target, i, src, t);
        if temp in s.nodes {
          PushDirTempTaken(c, s, target, i, src, t);
        }
      } else {
        PushFileTouches(c, s, target, i, src, t, at);
      }
    }
  }

  lemma PutRooted(c: Config, s: State, i: Item, src: Source, t: Trouble)
    requires Rooted(s.nodes) && IsAbs(c.cwd)
    requires i.name != "" ==> Apart(At(c, t.temp), Target(c, i.name))
    ensures Rooted(Put(c, s, i, src, t).state.nodes)
  {
    hide Locate, AbsPath, Put, Rooted;
    PutFootprint(c, s, i, src, t);
  }

  // ---- The index ----

  /** The path under which a push indexes its digest. */
  function IndexedAt(c: Config, i: Item, t: Trouble): string {
    if i.unpack then t.temp else AbsPath(c, i.name)
  }

  /** No link, and no file longer than the content, stands at a location. */
  ghost predicate NotLonger(nodes: Nodes, at: Loc, size: int) {
    at in nodes ==>
      match nodes[at]
      case File(before) => |before| <= size
      case Folder => true
      case Link(_) => false
  }

  lemma VerifiedWritten(c: Config, i: Item, src: Source, t: Trouble)
    requires Verified(c, i, src, t)
    ensures Written(i, src, t) == src.data
  {
    assert src.data[..|src.data|] == src.data;
  }

  /** The index before, or with the digest of verified content at `path`, where something stands: exactly
      that content, when so asked. */
  ghost predicate Indexes(c: Config, s: State, after: State, path: string, i: Item, src: Source, exact: bool) {
    || after.index == s.index
    || (&& after.index == s.index[i.digest := path]
        && At(c, path) in after.nodes
        && (exact ==> after.nodes[At(c, path)] == File(src.data))
        && c.sha(src.data) == i.digest)
  }

  lemma SaveFileIndexes(c: Config, s: State, path: string, i: Item, src: Source, t: Trouble, exact: bool)
    requires At(c, path) in s.nodes
    requires exact ==> s.nodes[At(c, path)].File?
    requires exact ==> NotLonger(s.nodes, At(c, path), i.size) || s.nodes[At(c, path)] == File([])
    ensures Indexes(c, s, SaveFile(c, s, path, i, src, t).state, path, i, src, exact)
  {
    hide Locate;
    if Verified(c, i, src, t) {
      VerifiedWritten(c, i, src, t);
      if exact {
        OverlayExact(s.nodes[At(c, path)].data, src.data);
      }
    }
  }

  lemma PushFileIndexes(c: Config, s: State, target: string, i: Item, src: Source, t: Trouble, exact: bool)
    requires exact ==> NotLonger(s.nodes, At(c, target), i.size)
    ensures Indexes(c, s, PushFile(c, s, target, i, src, t).state, target, i, src, exact)
  {
    hide Locate, Dir, SaveFile, Indexes;
    var at := At(c, target);
    var dirs := MkdirAll(s.nodes, At(c, Dir(target)));
    IndexesSame(c, s, s.nodes, target, i, src, exact);
    if !t.mkdir && dirs.Ok? {
      MkdirAllAdds(s.nodes, At(c, Dir(target)));
      IndexesSame(c, s, dirs.value, target, i, src, exact);
      var touched := Write(dirs.value, at, [], false);
      if !t.open && touched.Ok? {
        assert touched.value[at] == if at in s.nodes then s.nodes[at] else File([]);
        var s' := s.(nodes := touched.value);
        SaveFileIndexes(c, s', target, i, src, t, exact);
        IndexesFrom(c, s, s', SaveFile(c, s', target, i, src, t).state, target, i, src, exact);
      }
    }
  }

  lemma IndexesSame(c: Config, s: State, nodes: Nodes, path: string, i: Item, src: Source, exact: bool)
    ensures Indexes(c, s, s.(nodes := nodes), path, i, src, exact)
  {
  }

  lemma IndexesFrom(
    c: Config, s: State, s': State, after: State, path: string, i: Item, src: Source, exact: bool)
    requires s.index == s'.index && Indexes(c, s', after, path, i, src, exact)
    ensures Indexes(c, s, after, path, i, src, exact)
  {
  }

  lemma PushDirIndexes(c: Config, s: State, target: string, i: Item, src: Source, t: Trouble)
    requires Rooted(s.nodes) && IsAbs(c.cwd) && Apart(At(c, t.temp), At(c, target))
    ensures Indexes(c, s, PushDir(c, s, target, i, src, t).state, t.temp, i, src, true)
  {
    hide Locate, SaveFile, Indexes, Extract;
    var at, tmp := At(c, target), At(c, t.temp);
    var dirs := MkdirAll(s.nodes, at);
    IndexesSame(c, s, s.nodes, t.temp, i, src, true);
    if !t.mkdir && dirs.Ok? {
      IndexesSame(c, s, dirs.value, t.temp, i, src, true);
      MkdirAllRooted(s.nodes, at);
      MkdirAllAdds(s.nodes, at);
      var temp := Create(dirs.value, tmp, File([]));
      if !t.open && temp.Ok? {
        var s' := s.(nodes := temp.value, tmp := s.tmp + {t.temp});
        CreateTouches(dirs.value, tmp, at, tmp);
        SaveFileIndexes(c, s', t.temp, i, src, t, true);
        SaveFileTouches(c, s', t.temp, i, src, t, at, tmp);
        SaveFileFolder(c, s', i, src, t, at);
        var saved := SaveFile(c, s', t.temp, i, src, t);
        IndexesFrom(c, s, s', saved.state, t.temp, i, src, true);
        if saved.ok && c.decode(src.data).Some? {
          var hs := c.decode(src.data).value.headers;
          ExtractContained(saved.state.nodes, c.cwd, target, i.name, hs);
          var after := Extract(saved.state.nodes, c.cwd, target, i.name, hs).nodes;
          IndexesKept(c, s, saved.state, after, t.temp, i, src, at);
        }
      }
    }
  }

  lemma IndexesKept(c: Config, s: State, after: State, nodes: Nodes, path: string, i: Item, src: Source, at: Loc)
    requires Indexes(c, s, after, path, i, src, true)
    requires SameOutside(at, after.nodes, nodes) && !(at <= At(c, path))
    ensures Indexes(c, s, after.(nodes := nodes), path, i, src, true)
  {
  }

  /** A push of a named item indexes nothing, or its digest, at a file that holds exactly its content. */
  lemma PutIndexes(c: Config, s: State, i: Item, src: Source, t: Trouble, exact: bool)
    requires Rooted(s.nodes) && IsAbs(c.cwd)
    requires i.name != "" ==> Apart(At(c, t.temp), Target(c, i.name))
    requires exact && i.name != "" && !i.unpack ==> NotLonger(s.nodes, Target(c, i.name), i.size)
    ensures Indexes(c, s, Put(c, s, i, src, t).state, IndexedAt(c, i, t), i, src, exact)
  {
    hide Locate, PushDir, PushFile, Rel, Abs, NotLonger, AbsPath;
    if i.name != "" {
      var target := AbsPath(c, i.name);
      if i.unpack {
        PushDirIndexes(c, s, target, i, src, t);
      } else {
        PushFileIndexes(c, s, target, i, src, t, exact);
      }
    }
  }

  /** A push never forgets a name, a digest or a fallback blob. */
  ghost predicate Keeps(s: State, s': State) {
    && s.names <= s'.names
    && s.index.Keys <= s'.index.Keys
    && s.fallback.Keys <= s'.fallback.Keys
    && forall k | k in s.fallback :: s'.fallback[k] == s.fallback[k]
  }

  lemma SaveFileKeeps(c: Config, s: State, path: string, i: Item, src: Source, t: Trouble)
    ensures
      var after := SaveFile(c, s, path, i, src, t).state;
      && after.names == s.names && after.fallback == s.fallback && after.tmp == s.tmp
      && s.index.Keys <= after.index.Keys <= s.index.Keys + {i.digest}
  {
  }

  lemma PushFileKeeps(c: Config, s: State, target: string, i: Item, src: Source, t: Trouble)
    ensures
      var after := PushFile(c, s, target, i, src, t).state;
      && after.names == s.names && after.fallback == s.fallback
      && s.index.Keys <= after.index.Keys <= s.index.Keys + {i.digest}
  {
    hide Locate, Dir, MkdirAll, Write, SaveFile;
    var dirs := MkdirAll(s.nodes, At(c, Dir(target)));
    if dirs.Ok? && Write(dirs.value, At(c, target), [], false).Ok? {
      SaveFileKeeps(c, s.(nodes := Write(dirs.value, At(c, target), [], false).value), target, i, src, t);
    }
  }

  lemma PushDirKeeps(c: Config, s: State, target: string, i: Item, src: Source, t: Trouble)
    ensures
      var after := PushDir(c, s, target, i, src, t).state;
      && after.names == s.names && after.fallback == s.fallback
      && s.index.Keys <= after.index.Keys <= s.index.Keys + {i.digest}
  {
    hide Locate, MkdirAll, Create, SaveFile, Extract;
    var dirs := MkdirAll(s.nodes, At(c, target));
    if dirs.Ok? && Create(dirs.value, At(c, t.temp), File([])).Ok? {
      var temp := Create(dirs.value, At(c, t.temp), File([])).value;
      SaveFileKeeps(c, s.(nodes := temp, tmp := s.tmp + {t.temp}), t.temp, i, src, t);
    }
  }

  /** What a push does to names and indexes. A named push makes its name exist exactly when it succeeds,
      and changes nothing where the name existed; only a file may be indexed under a new name's target. */
  lemma PutShape(c: Config, s: State, i: Item, src: Source, t: Trouble)
    ensures
      var put := Put(c, s, i, src, t);
      && Keeps(s, put.state) && put.err != Some(NotFound)
      && (i.name != "" ==> put.state.fallback == s.fallback)
      && (i.name == "" ==> put.state.names == s.names && put.state.nodes == s.nodes && put.state.index == s.index)
      && (i.name != "" && i.name in s.names ==> put == Done(s, Some(DuplicateName)))
      && (i.name != "" && i.name !in s.names ==>
            && put.state.names == (if put.err.None? then s.names + {i.name} else s.names)
            && (put.err.Some? && !i.unpack ==> put.state == s))
  {
    hide Locate, AbsPath, Rel, Abs, PushDir, PushFile;
    if i.name != "" {
      PushFileKeeps(c, s, AbsPath(c, i.name), i, src, t);
      PushDirKeeps(c, s, AbsPath(c, i.name), i, src, t);
    }
  }

  /** A push indexes no digest but its own. */
  lemma PutDigests(c: Config, s: State, i: Item, src: Source, t: Trouble)
    ensures Put(c, s, i, src, t).state.index.Keys <= s.index.Keys + {i.digest}
  {
    hide Locate, AbsPath, Rel, Abs, PushDir, PushFile;
    PushFileKeeps(c, s, AbsPath(c, i.name), i, src, t);
    PushDirKeeps(c, s, AbsPath(c, i.name), i, src, t);
  }

  /** A failed unpack leaves the target a folder, if it got that far. */
  lemma PushDirFolder(c: Config, s: State, target: string, i: Item, src: Source, t: Trouble)
    requires Rooted(s.nodes) && IsAbs(c.cwd)
    ensures
      var after := PushDir(c, s, target, i, src, t).state.nodes;
      after == s.nodes || IsFolder(after, At(c, target))
  {
    hide Locate, SaveFile, Extract;
    var at, tmp := At(c, target), At(c, t.temp);
    var dirs := MkdirAll(s.nodes, at);
    if !t.mkdir && dirs.Ok? {
      MkdirAllRooted(s.nodes, at);
      MkdirAllAdds(s.nodes, at);
      var temp := Create(dirs.value, tmp, File([]));
      if !t.open && temp.Ok? {
        var s' := s.(nodes := temp.value, tmp := s.tmp + {t.temp});
        CreateTouches(dirs.value, tmp, at, tmp);
        SaveFileTouches(c, s', t.temp, i, src, t, at, tmp);
        SaveFileFolder(c, s', i, src, t, at);
        var saved := SaveFile(c, s', t.temp, i, src, t);
        if saved.ok && c.decode(src.data).Some? {
          ExtractContained(saved.state.nodes, c.cwd, target, i.name, c.decode(src.data).value.headers);
        }
      }
    }
  }
}
