/** No push makes a symbolic link in a store whose working directory is absolute, when names are relative. With
    none there to begin with, the places that other theorems speak of are the places that are written. */
module LinkSafety {
  import opened GoStrings
  import opened Paths
  import opened Disk
  import opened Archive
  import opened RoundTrip
  import opened StoreSpec
  import opened PushEffects
  import opened StoreResults
  import opened StoreLaws

  lemma NoNewLinksTrans(a: Nodes, b: Nodes, c: Nodes)
    ensures NoNewLinks(a, a)
    ensures NoNewLinks(a, b) && NoNewLinks(b, c) ==> NoNewLinks(a, c)
  {
  }

  lemma MkdirNoLinks(nodes: Nodes, l: Loc)
    requires MkdirAll(nodes, l).Ok?
    ensures NoNewLinks(nodes, MkdirAll(nodes, l).value)
  {
    MkdirAllAdds(nodes, l);
  }

  lemma WriteNoLinks(nodes: Nodes, l: Loc, data: Bytes)
    requires Write(nodes, l, data, false).Ok?
    ensures NoNewLinks(nodes, Write(nodes, l, data, false).value)
  {
  }

  lemma SaveFileNoLinks(c: Config, s: State, path: string, i: Item, src: Source, t: Trouble)
    ensures NoNewLinks(s.nodes, SaveFile(c, s, path, i, src, t).state.nodes)
  {
    hide Locate, Write, Written, Verified, NoNewLinks;
    NoNewLinksTrans(s.nodes, s.nodes, s.nodes);
    if Write(s.nodes, At(c, path), Written(i, src, t), false).Ok? {
      WriteNoLinks(s.nodes, At(c, path), Written(i, src, t));
    }
  }

  lemma PushFileNoLinks(c: Config, s: State, target: string, i: Item, src: Source, t: Trouble)
    ensures NoNewLinks(s.nodes, PushFile(c, s, target, i, src, t).state.nodes)
  {
    hide Locate, Dir, Write, MkdirAll, SaveFile, NoNewLinks;
    NoNewLinksTrans(s.nodes, s.nodes, s.nodes);
    var dirs := MkdirAll(s.nodes, At(c, Dir(target)));
    if dirs.Ok? {
      MkdirNoLinks(s.nodes, At(c, Dir(target)));
      var touched := Write(dirs.value, At(c, target), [], false);
      if touched.Ok? {
        WriteNoLinks(dirs.value, At(c, target), []);
        SaveFileNoLinks(c, s.(nodes := touched.value), target, i, src, t);
        NoNewLinksTrans(s.nodes, dirs.value, touched.value);
        var saved := SaveFile(c, s.(nodes := touched.value), target, i, src, t);
        NoNewLinksTrans(s.nodes, touched.value, saved.state.nodes);
      }
    }
  }

  lemma PushDirNoLinks(c: Config, s: State, target: string, i: Item, src: Source, t: Trouble)
    requires IsAbs(target) && !IsAbs(i.name)
    ensures NoNewLinks(s.nodes, PushDir(c, s, target, i, src, t).state.nodes)
  {
    hide Locate, MkdirAll, SaveFile, Extract, NoNewLinks;
    NoNewLinksTrans(s.nodes, s.nodes, s.nodes);
    var dirs := MkdirAll(s.nodes, At(c, target));
    if dirs.Ok? {
      MkdirNoLinks(s.nodes, At(c, target));
      var temp := Create(dirs.value, At(c, t.temp), File([]));
      if temp.Ok? {
        CreateNoLinks(dirs.value, At(c, t.temp));
        NoNewLinksTrans(s.nodes, dirs.value, temp.value);
        var s' := s.(nodes := temp.value, tmp := s.tmp + {t.temp});
        var saved := SaveFile(c, s', t.temp, i, src, t);
        SaveFileNoLinks(c, s', t.temp, i, src, t);
        NoNewLinksTrans(s.nodes, temp.value, saved.state.nodes);
        if c.decode(src.data).Some? {
          var hs := c.decode(src.data).value.headers;
          ExtractMakesNoLinks(saved.state.nodes, c.cwd, target, i.name, hs);
          var after := Extract(saved.state.nodes, c.cwd, target, i.name, hs).nodes;
          NoNewLinksTrans(s.nodes, saved.state.nodes, after);
        }
      }
    }
  }

  lemma CreateNoLinks(nodes: Nodes, l: Loc)
    requires Create(nodes, l, File([])).Ok?
    ensures NoNewLinks(nodes, Create(nodes, l, File([])).value)
  {
  }

  lemma PutMakesNoLinks(c: Config, s: State, i: Item, src: Source, t: Trouble)
    requires IsAbs(c.workingDir) && !IsAbs(i.name)
    ensures NoNewLinks(s.nodes, Put(c, s, i, src, t).state.nodes)
  {
    hide Locate, JoinPath, ResolveWritePath, PushFile, PushDir, NoNewLinks;
    NoNewLinksTrans(s.nodes, s.nodes, s.nodes);
    JoinKeepsRoot(c.workingDir, i.name);
    PushFileNoLinks(c, s, AbsPath(c, i.name), i, src, t);
    PushDirNoLinks(c, s, AbsPath(c, i.name), i, src, t);
    if ResolveWritePath(c, s.nodes, i.name).Ok? {
      ResolvesToPath(c, s.nodes, i.name);
    }
  }

  ghost predicate RelativeNames(items: seq<Item>) {
    forall j | 0 <= j < |items| :: !IsAbs(items[j].name)
  }

  lemma {:induction false} RestoreMakesNoLinks(c: Config, s: State, items: seq<Item>, t: string -> Trouble)
    requires IsAbs(c.workingDir) && RelativeNames(items)
    ensures NoNewLinks(s.nodes, Restore(c, s, items, t).state.nodes)
    decreases |items|
  {
    hide Put, Fetch, NoNewLinks, IsAbs;
    NoNewLinksTrans(s.nodes, s.nodes, s.nodes);
    if items != [] {
      var i := items[0];
      RestoreMakesNoLinks(c, s, items[1..], t);
      var data := Fetch(c, s, i.(name := ""));
      if data.Ok? {
        var put := Put(c, s, i, data.value, t(i.name)).state;
        PutMakesNoLinks(c, s, i, data.value, t(i.name));
        RestoreMakesNoLinks(c, put, items[1..], t);
        NoNewLinksTrans(s.nodes, put.nodes, Restore(c, put, items[1..], t).state.nodes);
      }
    }
  }

  /** The names that a push writes and restores are relative. */
  ghost predicate PushRelative(c: Config, s: State, i: Item, src: Source, t: string -> Trouble) {
    var found := Successors(c, Put(c, s, i, src, t(i.name)).state, i);
    !IsAbs(i.name) && (found.Ok? ==> RelativeNames(found.value))
  }

  /** A push makes no link, whatever archives it unpacks and whatever it restores. */
  lemma PushMakesNoLinks(c: Config, s: State, i: Item, src: Source, t: string -> Trouble)
    requires IsAbs(c.workingDir) && PushRelative(c, s, i, src, t)
    ensures NoNewLinks(s.nodes, Push(c, s, i, src, t).state.nodes)
  {
    hide Put, Successors, Restore, NoNewLinks, IsAbs, GraphError;
    var put := Put(c, s, i, src, t(i.name)).state;
    NoNewLinksTrans(s.nodes, s.nodes, s.nodes);
    PutMakesNoLinks(c, s, i, src, t(i.name));
    var found := Successors(c, put, i);
    if found.Ok? {
      RestoreMakesNoLinks(c, put, found.value, t);
      NoNewLinksTrans(s.nodes, put.nodes, Restore(c, put, found.value, t).state.nodes);
    }
  }

  lemma AddMakesNoLinks(
    c: Config, s: State, name: string, mediaType: string, path: string, t: Trouble, tree: Tree)
    ensures NoNewLinks(s.nodes, Add(c, s, name, mediaType, path, t, tree).state.nodes)
  {
    hide Locate, AbsPath, Listing;
  }

  ghost predicate RunRelative(c: Config, s: State, ops: seq<Op>)
    decreases |ops|
  {
    ops != [] ==>
      && (ops[0].PushOp? ==> PushRelative(c, s, ops[0].item, ops[0].src, ops[0].troubles))
      && RunRelative(c, Apply(c, s, ops[0]), ops[1..])
  }

  /** No run of pushes and adds makes a link, so a tree without links stays one. */
  lemma {:induction false} RunMakesNoLinks(c: Config, s: State, ops: seq<Op>)
    requires IsAbs(c.workingDir) && RunRelative(c, s, ops)
    ensures NoNewLinks(s.nodes, Run(c, s, ops).nodes)
    decreases |ops|
  {
    hide Push, Add, NoNewLinks, IsAbs, PushRelative;
    NoNewLinksTrans(s.nodes, s.nodes, s.nodes);
    if ops != [] {
      match ops[0] {
        case PushOp(i, src, t) =>
          PushMakesNoLinks(c, s, i, src, t);
        case AddOp(name, mediaType, path, t, tree) =>
          AddMakesNoLinks(c, s, name, mediaType, path, t, tree);
      }
      var next := Apply(c, s, ops[0]);
      RunMakesNoLinks(c, next, ops[1..]);
      NoNewLinksTrans(s.nodes, next.nodes, Run(c, next, ops[1..]).nodes);
    }
  }

  /** No symbolic link stands at a location or above it, from the working directory down. */
  ghost predicate NoLinkOnTheWay(nodes: Nodes, base: Loc, at: Loc) {
    forall k | |base| <= k <= |at| && at[..k] in nodes :: !nodes[at[..k]].Link?
  }

  /** Where the working directory holds no link, it holds none after any run, so no path written there leads
      through one. */
  lemma RunStaysPut(c: Config, s: State, ops: seq<Op>, at: Loc)
    requires IsAbs(c.workingDir) && RunRelative(c, s, ops)
    requires Base(c) <= at && forall l | l in s.nodes && Base(c) <= l :: !s.nodes[l].Link?
    ensures NoLinkOnTheWay(Run(c, s, ops).nodes, Base(c), at)
  {
    hide Run, RunRelative, Base, IsAbs;
    RunMakesNoLinks(c, s, ops);
    var after := Run(c, s, ops).nodes;
    forall k | |Base(c)| <= k <= |at| && at[..k] in after ensures !after[at[..k]].Link? {
      assert Base(c) <= at[..k];
    }
  }
}
