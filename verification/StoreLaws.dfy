/** What single store operations promise: where they may write, what a success means, what becomes of a file
    under two names, and what restoring does. */
module StoreLaws {
  import opened GoStrings
  import opened Paths
  import opened Disk
  import opened Archive
  import opened RoundTrip
  import opened StoreSpec
  import opened PushEffects

  // ---- Where a name may be written ----

  /** The working directory. */
  function Base(c: Config): Loc {
    At(c, c.workingDir)
  }

  /** The test on the text of the relative path is containment of components, for names such as `..foo` too. */
  lemma TraversalTest(c: Config, name: string)
    requires IsAbs(c.cwd)
    ensures
      var rel := Rel(Abs(c.cwd, c.workingDir), Abs(c.cwd, AbsPath(c, name)));
      rel.Some? && !ClimbsOut(rel.value) <==> Base(c) <= Target(c, name)
  {
    hide Locate, AbsPath, Rel, Abs, ClimbsOut;
    var base, target := Abs(c.cwd, c.workingDir), Abs(c.cwd, AbsPath(c, name));
    AbsLocate(c.cwd, c.workingDir);
    AbsLocate(c.cwd, AbsPath(c, name));
    RelInside(base, target);
    ParseNormal(base);
    ParseNormal(target);
    InsideRooted(Parse(base), Parse(target));
  }

  /** A name resolves exactly when its path lies in the working directory, or traversal is allowed, and
      nothing is there, or overwriting is allowed. */
  lemma ResolvesExactly(c: Config, nodes: Nodes, name: string)
    requires IsAbs(c.cwd)
    ensures ResolveWritePath(c, nodes, name).Ok?
       <==> && (c.allowTraversal || Base(c) <= Target(c, name))
            && (c.disableOverwrite ==> Stat(c, nodes, Target(c, name)) == Err(NotExist))
    ensures ResolveWritePath(c, nodes, name) == Err(TraversalDisallowed)
       <==> !c.allowTraversal && !(Base(c) <= Target(c, name))
    ensures ResolveWritePath(c, nodes, name).Ok? ==> At(c, ResolveWritePath(c, nodes, name).value) == Target(c, name)
  {
    hide Locate, AbsPath, Rel, Abs, ClimbsOut, Stat;
    TraversalTest(c, name);
  }

  /** Everything that is not the working directory or below it stays; what appears there is a temporary file,
      or a missing folder above the working directory. */
  ghost predicate KeptOutside(c: Config, before: Nodes, after: Nodes, temps: set<Loc>) {
    forall l | !(Base(c) <= l) ::
      && (l in before ==> l in after && after[l] == before[l])
      && (l in after && l !in before ==> l in temps || (l < Base(c) && after[l] == Folder))
  }

  lemma PutInside(c: Config, s: State, i: Item, src: Source, t: Trouble)
    requires Rooted(s.nodes) && IsAbs(c.cwd) && !c.allowTraversal
    requires i.name != "" ==> Apart(At(c, t.temp), Target(c, i.name))
    ensures KeptOutside(c, s.nodes, Put(c, s, i, src, t).state.nodes, {At(c, t.temp)})
    ensures Rooted(Put(c, s, i, src, t).state.nodes)
  {
    hide Locate, AbsPath, ResolveWritePath, PushDir, PushFile, Rooted;
    var after := Put(c, s, i, src, t).state.nodes;
    PutFootprint(c, s, i, src, t);
    ResolvesExactly(c, s.nodes, i.name);
    if after != s.nodes {
      forall l | l in after && !(Base(c) <= l)
        ensures !(Target(c, i.name) <= l) && (l < Target(c, i.name) ==> l < Base(c))
      {
        if l <= Target(c, i.name) {
          Comparable(l, Target(c, i.name), Base(c));
        }
      }
    }
  }

  lemma ApartBelow(l: Loc, base: Loc, at: Loc)
    requires Apart(l, base) && base <= at
    ensures Apart(l, at)
  {
    if l <= at {
      Comparable(l, at, base);
    }
  }

  ghost predicate TempsApart(c: Config, items: seq<Item>, t: string -> Trouble) {
    forall j | 0 <= j < |items| && items[j].name != "" :: TempApart(c, items[j].name, t(items[j].name))
  }

  ghost predicate TempApart(c: Config, name: string, t: Trouble) {
    Apart(At(c, t.temp), Target(c, name))
  }

  function Temps(c: Config, items: seq<Item>, t: string -> Trouble): set<Loc> {
    set j | 0 <= j < |items| :: At(c, t(items[j].name).temp)
  }

  lemma TempsRest(c: Config, items: seq<Item>, t: string -> Trouble)
    requires items != []
    ensures Temps(c, items, t) == {At(c, t(items[0].name).temp)} + Temps(c, items[1..], t)
    ensures TempsApart(c, items, t) ==> TempsApart(c, items[1..], t)
  {
    hide Locate, AbsPath, TempApart;
    assert forall j | 0 <= j < |items[1..]| :: items[1..][j] == items[j + 1];
    forall l | l in Temps(c, items, t) ensures l in {At(c, t(items[0].name).temp)} + Temps(c, items[1..], t) {
      var j :| 0 <= j < |items| && l == At(c, t(items[j].name).temp);
      if j > 0 {
        assert items[1..][j - 1] == items[j];
      }
    }
  }

  lemma {:induction false} RestoreInside(c: Config, s: State, items: seq<Item>, t: string -> Trouble)
    requires Rooted(s.nodes) && IsAbs(c.cwd) && !c.allowTraversal && TempsApart(c, items, t)
    ensures KeptOutside(c, s.nodes, Restore(c, s, items, t).state.nodes, Temps(c, items, t))
    ensures Rooted(Restore(c, s, items, t).state.nodes)
    decreases |items|
  {
    hide Locate, AbsPath, Rooted, Put, Fetch, Temps, Base;
    if items != [] {
      var i := items[0];
      TempsRest(c, items, t);
      var data := Fetch(c, s, i.(name := ""));
      if i.name == "" || i.name in s.names || data == Err(NotFound) {
        RestoreInside(c, s, items[1..], t);
      } else if data.Ok? {
        PutInside(c, s, i, data.value, t(i.name));
        RestoreInside(c, Put(c, s, i, data.value, t(i.name)).state, items[1..], t);
      }
    }
  }

  /** With traversal disallowed no push, whatever its names, links and archives, touches anything outside
      the working directory but the temporary files it makes. */
  lemma PushInside(c: Config, s: State, i: Item, src: Source, t: string -> Trouble, items: seq<Item>)
    requires Rooted(s.nodes) && IsAbs(c.cwd) && !c.allowTraversal && TempsApart(c, [i] + items, t)
    requires
      var found := Successors(c, Put(c, s, i, src, t(i.name)).state, i);
      found.Ok? ==> found.value == items
    ensures KeptOutside(c, s.nodes, Push(c, s, i, src, t).state.nodes, Temps(c, [i] + items, t))
  {
    hide Locate, AbsPath, Rooted, Put, Temps, Base, Successors, Restore;
    var all := [i] + items;
    assert all[0] == i && all[1..] == items;
    TempsRest(c, all, t);
    PutInside(c, s, i, src, t(i.name));
    RestoreInside(c, Put(c, s, i, src, t(i.name)).state, items, t);
  }

  // ---- What a success means ----

  /** Whether the push of a named file got as far as opening it. */
  predicate Opened(c: Config, s: State, i: Item, t: Trouble) {
    var dirs := MkdirAll(s.nodes, At(c, Dir(AbsPath(c, i.name))));
    !t.mkdir && dirs.Ok? && !t.open && Write(dirs.value, Target(c, i.name), [], false).Ok?
  }

  /** Whether the push of a named file got as far as indexing it. */
  predicate FileWritten(c: Config, s: State, i: Item, src: Source, t: Trouble) {
    Opened(c, s, i, t) && Verified(c, i, src, t)
  }

  /** A push of a named file whose path resolves reports success whatever becomes of the file. */
  lemma LostWriteError(c: Config, s: State, i: Item, src: Source, t: Trouble)
    requires i.name != "" && !i.unpack && i.parses && i.name !in s.names
    requires ResolveWritePath(c, s.nodes, i.name).Ok?
    ensures Put(c, s, i, src, t).err == None
    ensures Put(c, s, i, src, t).state.names == s.names + {i.name}
    ensures i.digest in Put(c, s, i, src, t).state.index <==> i.digest in s.index || FileWritten(c, s, i, src, t)
  {
    hide Locate, Dir, Rel, Abs, MkdirAll, Write, Verified;
    PushFileKeeps(c, s, AbsPath(c, i.name), i, src, t);
    PushFileWritten(c, s, AbsPath(c, i.name), i, src, t);
  }

  lemma PushFileWritten(c: Config, s: State, target: string, i: Item, src: Source, t: Trouble)
    requires target == AbsPath(c, i.name)
    ensures i.digest in PushFile(c, s, target, i, src, t).state.index
       <==> i.digest in s.index || FileWritten(c, s, i, src, t)
  {
    hide Locate, Dir, MkdirAll, Write, AbsPath;
  }

  /** After a push reported success its content exists if and only if it existed under the name's digest
      before, or was not discarded as nameless and, for a plain file, was completely written. */
  lemma SuccessMeans(c: Config, s: State, i: Item, src: Source, t: Trouble)
    requires Put(c, s, i, src, t).err.None?
    ensures Exists(Put(c, s, i, src, t).state, i)
       <==> || i.digest in s.index || Key(i) in s.fallback
            || (if i.name == "" then !c.ignoreNoName else i.unpack || FileWritten(c, s, i, src, t))
  {
    hide Locate, Dir, Rel, Abs, MkdirAll, Write, Verified, AbsPath, PushFile, PushDir, FileWritten;
    if i.name != "" {
      PushFileKeeps(c, s, AbsPath(c, i.name), i, src, t);
      PushDirKeeps(c, s, AbsPath(c, i.name), i, src, t);
      PushFileWritten(c, s, AbsPath(c, i.name), i, src, t);
      if i.unpack {
        PushDirIndexed(c, s, AbsPath(c, i.name), i, src, t);
      }
    }
  }

  lemma PushDirIndexed(c: Config, s: State, target: string, i: Item, src: Source, t: Trouble)
    requires PushDir(c, s, target, i, src, t).ok
    ensures i.digest in PushDir(c, s, target, i, src, t).state.index
  {
    hide Locate, MkdirAll, Create, Extract, Write;
  }

  /** A completely written file holds exactly the pushed content if and only if no longer file stood there. */
  lemma LongerFile(c: Config, s: State, i: Item, src: Source, t: Trouble)
    requires i.name != "" && !i.unpack && i.parses && i.name !in s.names
    requires ResolveWritePath(c, s.nodes, i.name).Ok? && FileWritten(c, s, i, src, t)
    ensures
      var at := Target(c, i.name);
      var after := Put(c, s, i, src, t).state;
      && after.index == s.index[i.digest := AbsPath(c, i.name)]
      && at in after.nodes
      && (after.nodes[at] == File(src.data) <==> NotLonger(s.nodes, at, |src.data|))
      && (at in s.nodes && s.nodes[at].File? && |s.nodes[at].data| > |src.data| ==>
            after.nodes[at] == File(src.data + s.nodes[at].data[|src.data|..]))
  {
    hide Locate, Dir, Rel, Abs, AbsPath;
    var path := AbsPath(c, i.name);
    var at := At(c, path);
    var dirs := MkdirAll(s.nodes, At(c, Dir(path)));
    MkdirAllAdds(s.nodes, At(c, Dir(path)));
    MkdirLeaves(s.nodes, At(c, Dir(path)), at);
    var touched := Write(dirs.value, at, [], false).value;
    TouchKeeps(dirs.value, at);
    var s' := s.(nodes := touched);
    VerifiedWritten(c, i, src, t);
    SaveOverlays(c, s', path, i, src, t);
  }

  /** Making the directory of a file that can then be opened does not make the file's own place a folder. */
  lemma MkdirLeaves(nodes: Nodes, dir: Loc, at: Loc)
    requires MkdirAll(nodes, dir).Ok? && Write(MkdirAll(nodes, dir).value, at, [], false).Ok?
    ensures
      var after := MkdirAll(nodes, dir).value;
      (at in after <==> at in nodes) && (at in nodes ==> after[at] == nodes[at] && nodes[at] != Folder)
  {
    MkdirAllAdds(nodes, dir);
  }

  lemma TouchKeeps(nodes: Nodes, at: Loc)
    requires Write(nodes, at, [], false).Ok?
    ensures
      var after := Write(nodes, at, [], false).value;
      at in after && after[at] == (if at in nodes then nodes[at] else File([]))
  {
  }

  lemma SaveOverlays(c: Config, s: State, path: string, i: Item, src: Source, t: Trouble)
    requires At(c, path) in s.nodes && s.nodes[At(c, path)] != Folder && Verified(c, i, src, t)
    ensures
      var after := SaveFile(c, s, path, i, src, t).state;
      var node := s.nodes[At(c, path)];
      && after.index == s.index[i.digest := path]
      && At(c, path) in after.nodes
      && after.nodes[At(c, path)] == if node.File? then File(Overlay(node.data, src.data)) else node
  {
    hide Locate;
    VerifiedWritten(c, i, src, t);
  }

  /** In terms of digests, when the two contents do not collide: the indexed file has the indexed digest if
      and only if the file that stood there was not longer. */
  lemma LongerFileDigest(c: Config, s: State, i: Item, src: Source, t: Trouble)
    requires i.name != "" && !i.unpack && i.parses && i.name !in s.names
    requires ResolveWritePath(c, s.nodes, i.name).Ok? && FileWritten(c, s, i, src, t)
    requires Target(c, i.name) in s.nodes && s.nodes[Target(c, i.name)].File?
    requires
      var mixed := Overlay(s.nodes[Target(c, i.name)].data, src.data);
      c.sha(mixed) == c.sha(src.data) ==> mixed == src.data
    ensures
      var at := Target(c, i.name);
      var after := Put(c, s, i, src, t).state;
      && at in after.nodes && after.nodes[at].File?
      && (c.sha(after.nodes[at].data) == i.digest <==> |s.nodes[at].data| <= |src.data|)
  {
    hide Locate, Dir, Rel, Abs, AbsPath, Put, MkdirAll, Write, ResolveWritePath;
    LongerFile(c, s, i, src, t);
    OverlayExact(s.nodes[Target(c, i.name)].data, src.data);
  }

  /** Nothing fails. */
  predicate Calm(t: Trouble) {
    !t.mkdir && !t.open && !t.close && !t.chown && t.space.None?
  }

  // ---- Names of one path ----

  /** A push that writes a plain file leaves every other file alone. */
  lemma OtherFilesStay(c: Config, s: State, i: Item, src: Source, t: Trouble, at: Loc)
    requires i.name != "" && !i.unpack && i.parses && i.name !in s.names
    requires ResolveWritePath(c, s.nodes, i.name).Ok? && FileWritten(c, s, i, src, t)
    requires at in s.nodes && at != Target(c, i.name)
    ensures
      var after := Put(c, s, i, src, t).state.nodes;
      at in after && after[at] == s.nodes[at]
  {
    hide Locate, Dir, Rel, Abs, AbsPath;
    MkdirAllAdds(s.nodes, At(c, Dir(AbsPath(c, i.name))));
  }

  /** Whether a push opens a file under its name and copies to it, whatever becomes of the copy. */
  predicate CopiesToFile(c: Config, s: State, i: Item, t: Trouble) {
    && i.name != "" && i.name !in s.names && !i.unpack && i.parses
    && ResolveWritePath(c, s.nodes, i.name).Ok? && Opened(c, s, i, t)
  }

  /** What saving to an open file does to the file at a location. */
  lemma SaveOverwrites(c: Config, s: State, path: string, i: Item, src: Source, t: Trouble, at: Loc, first: Bytes)
    requires At(c, path) in s.nodes && s.nodes[At(c, path)] != Folder
    requires at in s.nodes && s.nodes[at] == File(first)
    ensures
      var after := SaveFile(c, s, path, i, src, t).state;
      && at in after.nodes
      && after.nodes[at] == File(if At(c, path) == at then Overlay(first, Written(i, src, t)) else first)
      && forall d | d in s.index && d != i.digest :: d in after.index && after.index[d] == s.index[d]
  {
    hide Locate, Written, Verified;
  }

  lemma PushFileOverwrites(c: Config, s: State, i: Item, src: Source, t: Trouble, at: Loc, first: Bytes)
    requires at in s.nodes && s.nodes[at] == File(first)
    ensures
      var after := PushFile(c, s, AbsPath(c, i.name), i, src, t).state;
      var hit := Opened(c, s, i, t) && Target(c, i.name) == at;
      && at in after.nodes
      && after.nodes[at] == File(if hit then Overlay(first, Written(i, src, t)) else first)
      && forall d | d in s.index && d != i.digest :: d in after.index && after.index[d] == s.index[d]
  {
    hide Locate, Dir, AbsPath, Written, SaveFile;
    var target := AbsPath(c, i.name);
    var dirs := MkdirAll(s.nodes, At(c, Dir(target)));
    if dirs.Ok? {
      MkdirAllAdds(s.nodes, At(c, Dir(target)));
      var touched := Write(dirs.value, At(c, target), [], false);
      if touched.Ok? {
        TouchKeeps(dirs.value, At(c, target));
        SaveOverwrites(c, s.(nodes := touched.value), target, i, src, t, at, first);
      }
    }
  }

  /** What any push but an unpacking one does to the content indexed for another digest. The digest still leads
      to its path; the content is the old one if and only if the push does not come to copying, goes to another
      place, or copies only what stands there already. It does not matter whether the copy is verified, nor
      whether the push reports success. */
  lemma OverwritesExactly(
    c: Config, s: State, i: Item, src: Source, t: Trouble, d: Digest, path: string, first: Bytes)
    requires d in s.index && s.index[d] == path && At(c, path) in s.nodes && s.nodes[At(c, path)] == File(first)
    requires !i.unpack && i.digest != d
    ensures
      var at := At(c, path);
      var after := Put(c, s, i, src, t).state;
      var hit := CopiesToFile(c, s, i, t) && Target(c, i.name) == at;
      && d in after.index && after.index[d] == path
      && at in after.nodes
      && (after.nodes[at] == File(first) <==> !hit || Written(i, src, t) <= first)
      && (hit ==> after.nodes[at] == File(Overlay(first, Written(i, src, t))))
  {
    hide Locate, Dir, Rel, Abs, AbsPath, PushFile, Opened, Written, ResolveWritePath;
    PushFileOverwrites(c, s, i, src, t, At(c, path), first);
    OverlayKeeps(first, Written(i, src, t));
    if i.name != "" && ResolveWritePath(c, s.nodes, i.name).Ok? {
      ResolvesToPath(c, s.nodes, i.name);
    }
  }

  lemma ResolvesToPath(c: Config, nodes: Nodes, name: string)
    requires ResolveWritePath(c, nodes, name).Ok?
    ensures ResolveWritePath(c, nodes, name).value == AbsPath(c, name)
  {
    hide Locate, AbsPath, Rel, Abs;
  }

  /** The same for a push whose copy is verified. */
  lemma VerifiedOverwrites(
    c: Config, s: State, i: Item, src: Source, t: Trouble, d: Digest, path: string, first: Bytes)
    requires d in s.index && s.index[d] == path && At(c, path) in s.nodes && s.nodes[At(c, path)] == File(first)
    requires i.name != "" && !i.unpack && i.parses && i.name !in s.names && i.digest != d
    requires ResolveWritePath(c, s.nodes, i.name).Ok? && FileWritten(c, s, i, src, t)
    ensures
      var after := Put(c, s, i, src, t).state;
      && d in after.index && after.index[d] == path
      && At(c, path) in after.nodes
      && (after.nodes[At(c, path)] == File(first) <==> Target(c, i.name) != At(c, path) || src.data <= first)
      && (Target(c, i.name) == At(c, path) ==> after.nodes[At(c, path)] == File(Overlay(first, src.data)))
  {
    hide Locate, Dir, Rel, Abs, AbsPath, Put, Opened, Written, ResolveWritePath;
    VerifiedWritten(c, i, src, t);
    OverwritesExactly(c, s, i, src, t, d, path, first);
  }

  /** A push of damaged content under a second name of an indexed file: it reports success, indexes nothing,
      and the old digest leads to the damaged content. */
  lemma DamagedCopy(c: Config, s: State, i: Item, src: Source, t: Trouble, d: Digest, path: string, first: Bytes)
    requires d in s.index && s.index[d] == path && At(c, path) in s.nodes && s.nodes[At(c, path)] == File(first)
    requires CopiesToFile(c, s, i, t) && Target(c, i.name) == At(c, path) && i.digest != d
    requires !Verified(c, i, src, t) && !(Written(i, src, t) <= first)
    ensures
      var put := Put(c, s, i, src, t);
      && put.err == None
      && (i.digest in put.state.index <==> i.digest in s.index)
      && Fetch(c, put.state, Item("", d, 0, "", false, "", true))
         == Ok(Source(Overlay(first, Written(i, src, t)), false))
      && Overlay(first, Written(i, src, t)) != first
  {
    hide Locate, Dir, Rel, Abs, AbsPath, Put, Opened, Written, ResolveWritePath, Verified;
    OverwritesExactly(c, s, i, src, t, d, path, first);
    LostWriteError(c, s, i, src, t);
  }

  lemma OverlayKeeps(first: Bytes, data: Bytes)
    ensures Overlay(first, data) == first <==> data <= first
  {
    if data <= first {
      assert first == first[..|data|] + first[|data|..];
    } else if |data| < |first| {
      assert Overlay(first, data)[..|data|] == data;
    }
  }

  /** A name and the same name with `./` before it are one path, in the working directory. */
  lemma OnePath(c: Config, x: string)
    requires IsAbs(c.cwd) && Plain(x)
    ensures AbsPath(c, "./" + x) == AbsPath(c, x)
    ensures Target(c, x) == Base(c) + [x] && At(c, Dir(AbsPath(c, x))) == Base(c)
  {
    hide Locate, JoinPath, Parse, Split, Dir, Show;
    assert x[0] in x && AllPlain([x]) && !IsAbs(x) && !IsAbs("./" + x);
    NameShown(x);
    LocateJoin(c.cwd, c.workingDir, [x]);
    DotName(c.workingDir, x);
    JoinClean(c.workingDir, x);
    JoinClean(c.workingDir, "./" + x);
    DirOfJoin(c.workingDir, x);
    SamePlace(c.cwd, Dir(JoinPath(c.workingDir, x)), c.workingDir);
  }

  lemma SamePlace(cwd: string, a: string, b: string)
    requires Parse(a) == Parse(b)
    ensures Locate(cwd, a) == Locate(cwd, b)
  {
    ParseRooted(a);
    ParseRooted(b);
  }

  /** Joining to any path, `./x` means `x`. */
  lemma DotName(a: string, x: string)
    requires Plain(x)
    ensures Parse(JoinPath(a, "./" + x)) == Parse(JoinPath(a, x))
  {
    hide JoinPath, Split;
    var dotted := "./" + x;
    assert dotted == "." + ['/'] + x && '/' !in ".";
    SplitAt(".", x, '/');
    SplitNone(x, '/');
    ParseJoin(a, dotted);
    ParseJoin(a, x);
    var stack := Parse(a).comps;
    assert [".", x][1..] == [x];
    assert Split(dotted, '/') == [".", x];
    assert Fold(IsAbs(a), stack, [".", x]) == Fold(IsAbs(a), stack, [x]);
    assert x[0] in x && !IsAbs(x) && !IsAbs(dotted);
    assert Fold(false, [], [".", x]) == Fold(false, [], [x]);
  }

  /** Pushed to `x` and then, with other content, to `./x`: both pushes succeed, and afterwards the first
      digest leads to the second content laid over the first, for any working directory and contents. */
  lemma OverlappingNames(c: Config, s: State, x: string, first: Bytes, second: Bytes, t: Trouble)
    requires IsAbs(c.cwd) && IsFolder(s.nodes, Base(c)) && !c.disableOverwrite && Calm(t)
    requires Plain(x) && x !in s.names && "./" + x !in s.names && Base(c) + [x] !in s.nodes
    requires c.sha(first) != c.sha(second) && !(second <= first)
    ensures
      var i1 := Item("", c.sha(first), |first|, x, false, "", true);
      var i2 := Item("", c.sha(second), |second|, "./" + x, false, "", true);
      var s1 := Put(c, s, i1, Source(first, false), t);
      var s2 := Put(c, s1.state, i2, Source(second, false), t);
      && s1.err == None && s2.err == None
      && Fetch(c, s1.state, i1) == Ok(Source(first, false))
      && Fetch(c, s2.state, i1) == Ok(Source(Overlay(first, second), false)) && Overlay(first, second) != first
  {
    hide Locate, Dir, Rel, Abs, AbsPath, Put, Fetch, ResolveWritePath, FileWritten, Overlay, Rooted;
    var i1 := Item("", c.sha(first), |first|, x, false, "", true);
    var i2 := Item("", c.sha(second), |second|, "./" + x, false, "", true);
    OnePath(c, x);
    assert x[0] in x && "./" + x != x by { assert ("./" + x)[1] == '/'; }
    ResolvesExactly(c, s.nodes, x);
    CalmWritten(c, s, i1, first, t);
    LostWriteError(c, s, i1, Source(first, false), t);
    LongerFile(c, s, i1, Source(first, false), t);
    OtherFilesStay(c, s, i1, Source(first, false), t, Base(c));
    var s1 := Put(c, s, i1, Source(first, false), t).state;
    FetchIndexed(c, s1, i1, AbsPath(c, x), first);
    ResolvesExactly(c, s1.nodes, "./" + x);
    CalmWritten(c, s1, i2, second, t);
    LostWriteError(c, s1, i2, Source(second, false), t);
    VerifiedOverwrites(c, s1, i2, Source(second, false), t, i1.digest, AbsPath(c, x), first);
    FetchIndexed(c, Put(c, s1, i2, Source(second, false), t).state, i1, AbsPath(c, x), Overlay(first, second));
    OverlayKeeps(first, second);
  }

  lemma FetchIndexed(c: Config, s: State, i: Item, path: string, data: Bytes)
    requires i.name in s.names && i.digest in s.index && s.index[i.digest] == path
    requires At(c, path) in s.nodes && s.nodes[At(c, path)] == File(data)
    ensures Fetch(c, s, i) == Ok(Source(data, false))
  {
    hide Locate;
  }

  /** With nothing failing, a file is written completely into an existing folder. */
  lemma CalmWritten(c: Config, s: State, i: Item, data: Bytes, t: Trouble)
    requires Calm(t) && i.size == |data| && i.digest == c.sha(data)
    requires IsFolder(s.nodes, At(c, Dir(AbsPath(c, i.name)))) && Target(c, i.name) != []
    requires Parent(Target(c, i.name)) == At(c, Dir(AbsPath(c, i.name)))
    requires Target(c, i.name) in s.nodes ==> s.nodes[Target(c, i.name)].File?
    ensures FileWritten(c, s, i, Source(data, false), t)
  {
    hide Locate, Dir, AbsPath;
  }

  // ---- Restoring duplicates ----

  /** Content is known under a digest: at an existing node, or in the fallback. */
  ghost predicate Known(c: Config, s: State, i: Item) {
    if i.digest in s.index then At(c, s.index[i.digest]) in s.nodes else Key(i) in s.fallback
  }

  lemma PutKnown(c: Config, s: State, i: Item, src: Source, t: Trouble, other: Item)
    requires Rooted(s.nodes) && IsAbs(c.cwd) && Known(c, s, other)
    requires i.name != "" && TempApart(c, i.name, t)
    ensures Known(c, Put(c, s, i, src, t).state, other)
  {
    hide Locate, AbsPath, Rooted, Put;
    PutFootprint(c, s, i, src, t);
    PutIndexes(c, s, i, src, t, false);
    PutShape(c, s, i, src, t);
  }

  /** A fetch from a state that knows the content never reports that it is missing. */
  lemma KnownFetch(c: Config, s: State, i: Item)
    requires i.name == ""
    ensures Known(c, s, i) ==> Fetch(c, s, i) != Err(NotFound)
    ensures Fetch(c, s, i).Ok? ==> Known(c, s, i)
  {
    hide Locate, AbsPath;
  }

  /** After a restore that reports no error every named successor whose content could be found exists by
      name. */
  lemma {:induction false} RestoreCompletes(c: Config, s: State, items: seq<Item>, t: string -> Trouble, j: nat)
    requires Rooted(s.nodes) && IsAbs(c.cwd) && TempsApart(c, items, t)
    requires Restore(c, s, items, t).err.None? && j < |items|
    requires items[j].name != "" && Known(c, s, items[j].(name := ""))
    ensures items[j].name in Restore(c, s, items, t).state.names
    decreases |items|
  {
    hide Locate, AbsPath, Rooted, Put, Fetch, Temps, Known, Apart;
    var i := items[0];
    var nameless := items[j].(name := "");
    TempsRest(c, items, t);
    KnownFetch(c, s, i.(name := ""));
    var data := Fetch(c, s, i.(name := ""));
    var rest := s;
    if i.name != "" && i.name !in s.names && data != Err(NotFound) {
      var src := data.value;
      rest := Put(c, s, i, src, t(i.name)).state;
      PutShape(c, s, i, src, t(i.name));
      PutKnown(c, s, i, src, t(i.name), nameless);
      PutRooted(c, s, i, src, t(i.name));
    }
    if j > 0 {
      assert items[1..][j - 1] == items[j];
      RestoreCompletes(c, rest, items[1..], t, j - 1);
    } else {
      RestoreGrows(c, rest, items[1..], t);
    }
  }

  lemma {:induction false} RestoreGrows(c: Config, s: State, items: seq<Item>, t: string -> Trouble)
    ensures Keeps(s, Restore(c, s, items, t).state)
    decreases |items|
  {
    hide Put, Fetch;
    if items != [] {
      var i := items[0];
      var data := Fetch(c, s, i.(name := ""));
      if data.Ok? {
        PutShape(c, s, i, data.value, t(i.name));
        RestoreGrows(c, Put(c, s, i, data.value, t(i.name)).state, items[1..], t);
      }
      RestoreGrows(c, s, items[1..], t);
    }
  }

  /** A location that no name about to be restored is written to, or near. */
  ghost predicate OutOfTheWay(c: Config, s: State, items: seq<Item>, at: Loc) {
    forall j | 0 <= j < |items| && items[j].name != "" && items[j].name !in s.names ::
      Apart(at, Target(c, items[j].name))
  }

  /** A restore changes nothing that is not on the path of a name it restores. */
  lemma {:induction false} RestoreLeaves(c: Config, s: State, items: seq<Item>, t: string -> Trouble, at: Loc)
    requires Rooted(s.nodes) && IsAbs(c.cwd) && TempsApart(c, items, t)
    requires at in s.nodes && OutOfTheWay(c, s, items, at)
    ensures
      var after := Restore(c, s, items, t).state.nodes;
      at in after && after[at] == s.nodes[at]
    decreases |items|
  {
    hide Locate, AbsPath, Rooted, Put, Fetch, Temps;
    if items != [] {
      var i := items[0];
      assert forall j | 0 <= j < |items[1..]| :: items[1..][j] == items[j + 1];
      TempsRest(c, items, t);
      var data := Fetch(c, s, i.(name := ""));
      if i.name == "" || i.name in s.names || data == Err(NotFound) {
        RestoreLeaves(c, s, items[1..], t, at);
      } else if data.Ok? {
        PutFootprint(c, s, i, data.value, t(i.name));
        PutShape(c, s, i, data.value, t(i.name));
        RestoreLeaves(c, Put(c, s, i, data.value, t(i.name)).state, items[1..], t, at);
      }
    }
  }

  /** Every name that existed keeps its whole subtree when the restored names' paths do not overlap it. */
  lemma RestoreKeepsNames(c: Config, s: State, items: seq<Item>, t: string -> Trouble, name: string, at: Loc)
    requires Rooted(s.nodes) && IsAbs(c.cwd) && TempsApart(c, items, t)
    requires name in s.names && OutOfTheWay(c, s, items, Target(c, name)) && Target(c, name) <= at && at in s.nodes
    ensures
      var after := Restore(c, s, items, t).state;
      name in after.names && at in after.nodes && after.nodes[at] == s.nodes[at]
  {
    hide Locate, AbsPath, Rooted, Restore, TempsApart;
    forall j | 0 <= j < |items| && items[j].name != "" && items[j].name !in s.names
      ensures Apart(at, Target(c, items[j].name))
    {
      ApartBelow(Target(c, items[j].name), Target(c, name), at);
    }
    RestoreLeaves(c, s, items, t, at);
    RestoreGrows(c, s, items, t);
  }

  /** A push that reports success has restored every named successor whose content was known after the
      pushed content itself was stored. */
  lemma PushRestores(c: Config, s: State, i: Item, src: Source, t: string -> Trouble, items: seq<Item>, j: nat)
    requires Rooted(s.nodes) && IsAbs(c.cwd) && TempsApart(c, [i] + items, t)
    requires Push(c, s, i, src, t).err.None? && !c.forceCAS && (i.name == "" ==> !c.ignoreNoName)
    requires
      var put := Put(c, s, i, src, t(i.name)).state;
      && (Successors(c, put, i).Ok? ==> Successors(c, put, i).value == items)
      && j < |items| && items[j].name != "" && Known(c, put, items[j].(name := ""))
    ensures items[j].name in Push(c, s, i, src, t).state.names
    ensures i.name != "" ==> i.name in Push(c, s, i, src, t).state.names
  {
    hide Locate, AbsPath, Rooted, Put, Successors, Restore, Known, Temps;
    var all := [i] + items;
    assert all[0] == i && all[1..] == items;
    TempsRest(c, all, t);
    var put := Put(c, s, i, src, t(i.name));
    PutShape(c, s, i, src, t(i.name));
    PutRooted(c, s, i, src, t(i.name));
    RestoreCompletes(c, put.state, items, t, j);
    RestoreGrows(c, put.state, items, t);
  }

  /** A push, with all it restores, leaves every name that existed, and its whole subtree, as it was when none
      of the names it writes lies on a path with it. */
  lemma PushKeepsNames(
    c: Config, s: State, i: Item, src: Source, t: string -> Trouble, items: seq<Item>, name: string, at: Loc)
    requires Rooted(s.nodes) && IsAbs(c.cwd) && TempsApart(c, [i] + items, t)
    requires
      var found := Successors(c, Put(c, s, i, src, t(i.name)).state, i);
      found.Ok? ==> found.value == items
    requires name in s.names && OutOfTheWay(c, s, [i] + items, Target(c, name))
    requires Target(c, name) <= at && at in s.nodes
    ensures
      var after := Push(c, s, i, src, t).state;
      name in after.names && at in after.nodes && after.nodes[at] == s.nodes[at]
  {
    hide Locate, AbsPath, Rooted, Put, Successors, Restore, Temps, Footprint;
    var all := [i] + items;
    assert all[0] == i && all[1..] == items;
    TempsRest(c, all, t);
    var put := Put(c, s, i, src, t(i.name)).state;
    PutShape(c, s, i, src, t(i.name));
    PutRooted(c, s, i, src, t(i.name));
    if i.name != "" && i.name !in s.names {
      PutFootprint(c, s, i, src, t(i.name));
      ApartBelow(Target(c, i.name), Target(c, name), at);
      FootprintKeeps(s.nodes, put.nodes, Target(c, i.name), At(c, t(i.name).temp), at);
    }
    forall j | 0 <= j < |items| && items[j].name != "" && items[j].name !in put.names
      ensures Apart(Target(c, name), Target(c, items[j].name))
    {
      assert all[j + 1] == items[j];
    }
    RestoreKeepsNames(c, put, items, t, name, at);
  }

  lemma FootprintKeeps(before: Nodes, after: Nodes, target: Loc, temp: Loc, at: Loc)
    requires Footprint(before, after, target, temp) && Apart(target, at) && at in before
    ensures at in after && after[at] == before[at]
  {
  }
}
