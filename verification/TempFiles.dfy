/** Temporary files: every one that a run of pushes and adds makes is remembered, so closing the store leaves
    nothing outside the working directory. */
module TempFiles {
  import opened GoStrings
  import opened Paths
  import opened Disk
  import opened Archive
  import opened RoundTrip
  import opened StoreSpec
  import opened PushEffects
  import opened StoreLaws
  import opened StoreResults

  /** The place holds a temporary file that the store remembers. */
  ghost predicate Remembered(c: Config, tmp: set<string>, l: Loc) {
    exists name :: name in tmp && At(c, name) == l
  }

  /** What a store that started over the tree `before` has done outside its working directory: it changed nothing,
      and made none but missing folders above it and files that it remembers, all of which are new. */
  ghost predicate Tidy(c: Config, before: Nodes, s: State) {
    && Rooted(s.nodes) && before.Keys <= s.nodes.Keys
    && (forall l | l in before && !(Base(c) <= l) :: s.nodes[l] == before[l])
    && (forall l | l in s.nodes && l !in before && !(Base(c) <= l) ::
          Remembered(c, s.tmp, l) || (l < Base(c) && s.nodes[l] == Folder))
    && (forall name | name in s.tmp :: At(c, name) !in before)
  }

  /** A change at one place in the working directory, and perhaps one new file that is remembered. */
  ghost predicate Change(c: Config, s: State, s': State, at: Loc, t: Trouble) {
    || (s'.tmp == s.tmp && Touches(s.nodes, s'.nodes, at, at))
    || (s'.tmp == s.tmp + {t.temp} && Touches(s.nodes, s'.nodes, at, At(c, t.temp)) && At(c, t.temp) !in s.nodes)
  }

  lemma ChangeTidy(c: Config, before: Nodes, s: State, s': State, at: Loc, t: Trouble)
    requires Tidy(c, before, s) && Base(c) <= at && Change(c, s, s', at, t)
    ensures Tidy(c, before, s')
  {
    hide Locate, Rooted, Base;
    forall l | l in s'.nodes && l !in before && !(Base(c) <= l)
      ensures Remembered(c, s'.tmp, l) || (l < Base(c) && s'.nodes[l] == Folder)
    {
      if l in s.nodes {
        if Remembered(c, s.tmp, l) {
          var name :| name in s.tmp && At(c, name) == l;
          assert name in s'.tmp;
        }
      } else if t.temp in s'.tmp && l == At(c, t.temp) {
      } else {
        assert at <= l ==> Base(c) <= l;
        Comparable(l, at, Base(c));
      }
    }
  }

  lemma PushDirChange(c: Config, s: State, target: string, i: Item, src: Source, t: Trouble)
    requires Rooted(s.nodes) && IsAbs(c.cwd) && Apart(At(c, t.temp), At(c, target))
    ensures Change(c, s, PushDir(c, s, target, i, src, t).state, At(c, target), t)
  {
    hide Locate, Touches, SaveFile, Extract, MkdirAll;
    var at := At(c, target);
    PushDirTouches(c, s, target, i, src, t);
    TouchesRefl(s.nodes, at, at);
    var dirs := MkdirAll(s.nodes, at);
    if dirs.Ok? {
      MkdirTouches(s.nodes, at, at, at);
      MkdirAllAdds(s.nodes, at);
      if Create(dirs.value, At(c, t.temp), File([])).Ok? {
        var temp := Create(dirs.value, At(c, t.temp), File([])).value;
        SaveFileKeeps(c, s.(nodes := temp, tmp := s.tmp + {t.temp}), t.temp, i, src, t);
      }
    }
  }

  lemma PutTidy(c: Config, before: Nodes, s: State, i: Item, src: Source, t: Trouble)
    requires Tidy(c, before, s) && IsAbs(c.cwd) && !c.allowTraversal
    requires i.name != "" ==> TempApart(c, i.name, t)
    ensures Tidy(c, before, Put(c, s, i, src, t).state)
  {
    hide Locate, AbsPath, ResolveWritePath, PushDir, PushFile, Change, Touches, Rooted, Apart;
    if i.name != "" && ResolveWritePath(c, s.nodes, i.name).Ok? {
      var at, path := Target(c, i.name), AbsPath(c, i.name);
      ResolvesExactly(c, s.nodes, i.name);
      ResolvesToPath(c, s.nodes, i.name);
      PushDirChange(c, s, path, i, src, t);
      PushFileChange(c, s, path, i, src, t);
      ChangeTidy(c, before, s, PushDir(c, s, path, i, src, t).state, at, t);
      ChangeTidy(c, before, s, PushFile(c, s, path, i, src, t).state, at, t);
      TidyNames(c, before, PushDir(c, s, path, i, src, t).state, s.names + {i.name});
      TidyNames(c, before, PushFile(c, s, path, i, src, t).state, s.names + {i.name});
    }
  }

  lemma TidyNames(c: Config, before: Nodes, s: State, names: set<string>)
    requires Tidy(c, before, s)
    ensures Tidy(c, before, s.(names := names))
  {
    TidySame(c, before, s, s.(names := names));
  }

  lemma PushFileChange(c: Config, s: State, target: string, i: Item, src: Source, t: Trouble)
    requires Rooted(s.nodes)
    ensures Change(c, s, PushFile(c, s, target, i, src, t).state, At(c, target), t)
  {
    hide Locate, Touches, Dir, MkdirAll, Write;
    PushFileTouches(c, s, target, i, src, t, At(c, target));
  }

  lemma {:induction false} RestoreTidy(c: Config, before: Nodes, s: State, items: seq<Item>, t: string -> Trouble)
    requires Tidy(c, before, s) && IsAbs(c.cwd) && !c.allowTraversal && TempsApart(c, items, t)
    ensures Tidy(c, before, Restore(c, s, items, t).state)
    decreases |items|
  {
    hide Put, Fetch, Tidy;
    if items != [] {
      var i := items[0];
      TempsRest(c, items, t);
      RestoreTidy(c, before, s, items[1..], t);
      var data := Fetch(c, s, i.(name := ""));
      if data.Ok? {
        PutTidy(c, before, s, i, data.value, t(i.name));
        RestoreTidy(c, before, Put(c, s, i, data.value, t(i.name)).state, items[1..], t);
      }
    }
  }

  /** The temporary files of an operation lie apart from what it writes. */
  ghost predicate OpApart(c: Config, s: State, op: Op) {
    match op
    case PushOp(i, src, t) =>
      && TempsApart(c, [i], t)
      && var found := Successors(c, Put(c, s, i, src, t(i.name)).state, i);
         (found.Ok? ==> TempsApart(c, found.value, t))
    case AddOp(_, _, _, _, _) => true
  }

  ghost predicate RunApart(c: Config, s: State, ops: seq<Op>)
    decreases |ops|
  {
    ops != [] ==> OpApart(c, s, ops[0]) && RunApart(c, Apply(c, s, ops[0]), ops[1..])
  }

  lemma PushTidy(c: Config, before: Nodes, s: State, i: Item, src: Source, t: string -> Trouble)
    requires Tidy(c, before, s) && IsAbs(c.cwd) && !c.allowTraversal && OpApart(c, s, PushOp(i, src, t))
    ensures Tidy(c, before, Push(c, s, i, src, t).state)
  {
    hide Put, Tidy, Successors, Restore, GraphError;
    assert i.name != "" ==> TempApart(c, [i][0].name, t([i][0].name));
    PutTidy(c, before, s, i, src, t(i.name));
    var put := Put(c, s, i, src, t(i.name)).state;
    var found := Successors(c, put, i);
    if found.Ok? {
      RestoreTidy(c, before, put, found.value, t);
    }
  }

  /** A temporary file has been made, and is remembered. */
  ghost predicate Made(c: Config, s: State, s': State, temp: string) {
    var at := At(c, temp);
    && s'.tmp == s.tmp + {temp} && Create(s.nodes, at, File([])).Ok?
    && at in s'.nodes && s'.nodes[at].File? && s'.nodes == s.nodes[at := s'.nodes[at]]
  }

  /** An add makes nothing but its temporary file. */
  lemma AddMakes(c: Config, s: State, name: string, mediaType: string, path: string, t: Trouble, tree: Tree)
    ensures
      var s' := Add(c, s, name, mediaType, path, t, tree).state;
      (s'.nodes == s.nodes && s'.tmp == s.tmp) || Made(c, s, s', t.temp)
  {
    hide Locate, AbsPath, Listing, Stat;
    AddDirMakes(c, s, name, mediaType, tree, t);
    hide AddDir;
  }

  lemma AddDirMakes(c: Config, s: State, name: string, mediaType: string, tree: Tree, t: Trouble)
    ensures
      var s' := AddDir(c, s, name, mediaType, tree, t).state;
      s' == s || Made(c, s, s', t.temp)
  {
    hide Locate, Listing;
    var temp := Create(s.nodes, At(c, t.temp), File([]));
    if temp.Ok? {
      var f := AddDir(c, s, name, mediaType, tree, t).state.nodes;
      assert At(c, t.temp) in f ==>
          temp.value[At(c, t.temp) := f[At(c, t.temp)]] == s.nodes[At(c, t.temp) := f[At(c, t.temp)]];
    }
  }


  lemma AddTidy(
    c: Config, before: Nodes, s: State, name: string, mediaType: string, path: string, t: Trouble, tree: Tree)
    requires Tidy(c, before, s)
    ensures Tidy(c, before, Add(c, s, name, mediaType, path, t, tree).state)
  {
    hide Add, Tidy, Made;
    AddMakes(c, s, name, mediaType, path, t, tree);
    var s' := Add(c, s, name, mediaType, path, t, tree).state;
    if Made(c, s, s', t.temp) {
      TidyNew(c, before, s, s', t.temp);
    } else {
      TidySame(c, before, s, s');
    }
  }

  lemma TidySame(c: Config, before: Nodes, s: State, s': State)
    requires Tidy(c, before, s) && s'.nodes == s.nodes && s'.tmp == s.tmp
    ensures Tidy(c, before, s')
  {
    hide Locate, Base, Rooted;
  }

  lemma TidyNew(c: Config, before: Nodes, s: State, s': State, temp: string)
    requires Tidy(c, before, s) && Made(c, s, s', temp)
    ensures Tidy(c, before, s')
  {
    hide Locate, Base;
    assert Rooted(s'.nodes);
    hide Rooted;
    assert temp in s'.tmp && Remembered(c, s'.tmp, At(c, temp));
    forall l | Remembered(c, s.tmp, l) ensures Remembered(c, s'.tmp, l) {
      var n :| n in s.tmp && At(c, n) == l;
      assert n in s'.tmp;
    }
  }

  lemma {:induction false} RunTidy(c: Config, before: Nodes, s: State, ops: seq<Op>)
    requires Tidy(c, before, s) && IsAbs(c.cwd) && !c.allowTraversal && RunApart(c, s, ops)
    ensures Tidy(c, before, Run(c, s, ops))
    decreases |ops|
  {
    hide Push, Add, Tidy, OpApart;
    if ops != [] {
      match ops[0] {
        case PushOp(i, src, t) =>
          PushTidy(c, before, s, i, src, t);
        case AddOp(name, mediaType, path, t, tree) =>
          AddTidy(c, before, s, name, mediaType, path, t, tree);
      }
      RunTidy(c, before, Apply(c, s, ops[0]), ops[1..]);
    }
  }

  /** Whatever a store did, in whatever order and with whatever failures: once it is closed without error, nothing
      outside its working directory differs from what was there at first, but for missing folders above it. */
  lemma ClosedTidy(c: Config, before: Nodes, ops: seq<Op>, after: Nodes)
    requires Rooted(before) && IsAbs(c.cwd) && !c.allowTraversal && RunApart(c, New(before), ops)
    requires Cleared(c, Run(c, New(before), ops), after)
    ensures KeptOutside(c, before, after, {})
  {
    hide Locate, Run, RunApart, Rooted, Base;
    RunTidy(c, before, New(before), ops);
    var s := Run(c, New(before), ops);
    forall l | Remembered(c, s.tmp, l) ensures l !in before {
      var name :| name in s.tmp && At(c, name) == l;
    }
  }
}
