/** What holds of the file store over every run of pushes and adds. */
module StoreResults {
  import opened GoStrings
  import opened Paths
  import opened Disk
  import opened RoundTrip
  import opened StoreSpec
  import opened PushEffects

  /** The names a run may write, and the tree it starts from. */
  datatype Plan = Plan(names: set<string>, before: Nodes)

  /** No name's path is another's, or lies above or below it. */
  ghost predicate NoOverlap(c: Config, plan: Plan) {
    forall m, n | m in plan.names && n in plan.names && m != n :: Apart(Target(c, m), Target(c, n))
  }

  /** A location apart from the targets of the given names. */
  ghost predicate ApartFrom(c: Config, names: set<string>, at: Loc) {
    forall n | n in names :: Apart(at, Target(c, n))
  }

  /** A push that keeps to the plan: a temporary file elsewhere, and no longer file under the name. */
  ghost predicate Planned(c: Config, plan: Plan, i: Item, t: Trouble) {
    i.name != "" ==>
      && i.name in plan.names
      && ApartFrom(c, plan.names, At(c, t.temp))
      && (!i.unpack ==> NotLonger(plan.before, Target(c, i.name), i.size))
  }

  /** An indexed digest has a file with its content, where no name that is still free will be written. */
  ghost predicate Backed(c: Config, plan: Plan, s: State, d: Digest)
    requires d in s.index
  {
    var at := At(c, s.index[d]);
    && at in s.nodes && s.nodes[at].File? && c.sha(s.nodes[at].data) == d
    && ApartFrom(c, plan.names - s.names, at)
  }

  /** What a free name's target holds was there from the start, unless it is a folder. */
  ghost predicate Free(plan: Plan, nodes: Nodes, at: Loc) {
    at in nodes && nodes[at] != Folder ==> at in plan.before && plan.before[at] == nodes[at]
  }

  ghost predicate Indexed(c: Config, plan: Plan, s: State) {
    forall d | d in s.index :: Backed(c, plan, s, d)
  }

  ghost predicate AllFree(c: Config, plan: Plan, s: State) {
    forall n | n in plan.names && n !in s.names :: Free(plan, s.nodes, Target(c, n))
  }

  ghost predicate FallbackSound(c: Config, s: State) {
    forall k | k in s.fallback :: c.sha(s.fallback[k]) == k.digest
  }

  ghost predicate Sound(c: Config, plan: Plan, s: State) {
    Rooted(s.nodes) && Indexed(c, plan, s) && AllFree(c, plan, s) && FallbackSound(c, s)
  }

  /** A change that leaves everything apart from one target alone, but for a new file, keeps what was indexed
      elsewhere. */
  lemma StaysBacked(c: Config, plan: Plan, s: State, s': State, d: Digest, at: Loc, temp: Loc)
    requires d in s.index && d in s'.index && s'.index[d] == s.index[d] && s.names <= s'.names
    requires Footprint(s.nodes, s'.nodes, at, temp)
    requires Backed(c, plan, s, d) && Apart(At(c, s.index[d]), at)
    ensures Backed(c, plan, s', d)
  {
    hide Locate, Rooted, AbsPath;
  }

  lemma PutFree(c: Config, plan: Plan, s: State, i: Item, src: Source, t: Trouble)
    requires IsAbs(c.cwd) && NoOverlap(c, plan) && Rooted(s.nodes) && AllFree(c, plan, s)
    requires i.name != "" && i.name !in s.names && Planned(c, plan, i, t)
    ensures AllFree(c, plan, Put(c, s, i, src, t).state)
  {
    hide Locate, AbsPath, Put, NotLonger, Footprint, Free;
    var put := Put(c, s, i, src, t);
    PutShape(c, s, i, src, t);
    PutFootprint(c, s, i, src, t);
    forall n | n in plan.names && n !in put.state.names ensures Free(plan, put.state.nodes, Target(c, n)) {
      if n == i.name {
        PutFailedFolder(c, s, i, src, t);
        FreeFolder(plan, s.nodes, put.state.nodes, Target(c, n));
      } else {
        FreeApart(plan, s.nodes, put.state.nodes, Target(c, n), Target(c, i.name), At(c, t.temp));
      }
    }
  }

  lemma FreeFolder(plan: Plan, nodes: Nodes, after: Nodes, at: Loc)
    requires Free(plan, nodes, at) && (after == nodes || IsFolder(after, at))
    ensures Free(plan, after, at)
  {
  }

  lemma FreeApart(plan: Plan, nodes: Nodes, after: Nodes, at: Loc, target: Loc, temp: Loc)
    requires Free(plan, nodes, at) && Footprint(nodes, after, target, temp) && Apart(at, target) && Apart(temp, at)
    ensures Free(plan, after, at)
  {
    hide Rooted, NodesStay;
  }

  /** A named push that fails leaves its target as it was, or a folder. */
  lemma PutFailedFolder(c: Config, s: State, i: Item, src: Source, t: Trouble)
    requires Rooted(s.nodes) && IsAbs(c.cwd) && i.name != "" && Put(c, s, i, src, t).err.Some?
    ensures
      var after := Put(c, s, i, src, t).state.nodes;
      after == s.nodes || IsFolder(after, Target(c, i.name))
  {
    hide Locate, AbsPath, PushDir, PushFile, Rel, Abs;
    PushDirFolder(c, s, AbsPath(c, i.name), i, src, t);
  }

  lemma PutIndexed(c: Config, plan: Plan, s: State, i: Item, src: Source, t: Trouble)
    requires IsAbs(c.cwd) && NoOverlap(c, plan) && Sound(c, plan, s)
    requires i.name != "" && i.name !in s.names && Planned(c, plan, i, t)
    ensures Indexed(c, plan, Put(c, s, i, src, t).state)
  {
    hide Locate, AbsPath, Put, NotLonger, Footprint, Free, Backed;
    var s' := Put(c, s, i, src, t).state;
    PutShape(c, s, i, src, t);
    PutFootprint(c, s, i, src, t);
    if !i.unpack {
      FreeNotLonger(plan, s.nodes, Target(c, i.name), i.size);
    }
    PutIndexes(c, s, i, src, t, true);
    forall d | d in s'.index ensures Backed(c, plan, s', d) {
      if s'.index != s.index && d == i.digest {
        NewBacked(c, plan, s, s', i, src, t);
      } else {
        BackedApart(c, plan, s, d, i.name);
        StaysBacked(c, plan, s, s', d, Target(c, i.name), At(c, t.temp));
      }
    }
  }

  lemma BackedApart(c: Config, plan: Plan, s: State, d: Digest, name: string)
    requires d in s.index && Backed(c, plan, s, d) && name in plan.names && name !in s.names
    ensures Apart(At(c, s.index[d]), Target(c, name))
  {
    hide Locate, AbsPath;
  }

  lemma FreeNotLonger(plan: Plan, nodes: Nodes, at: Loc, size: int)
    requires Free(plan, nodes, at) && NotLonger(plan.before, at, size)
    ensures NotLonger(nodes, at, size)
  {
  }

  lemma NewBacked(c: Config, plan: Plan, s: State, s': State, i: Item, src: Source, t: Trouble)
    requires NoOverlap(c, plan) && i.name != "" && Planned(c, plan, i, t)
    requires Indexes(c, s, s', IndexedAt(c, i, t), i, src, true) && s'.index != s.index
    requires i.unpack || i.name in s'.names
    ensures Backed(c, plan, s', i.digest)
  {
    hide Locate, AbsPath, NotLonger;
  }

  /** A push that keeps to the plan keeps the index sound. */
  lemma PutKeeps(c: Config, plan: Plan, s: State, i: Item, src: Source, t: Trouble)
    requires IsAbs(c.cwd) && NoOverlap(c, plan) && Sound(c, plan, s) && Planned(c, plan, i, t)
    ensures Sound(c, plan, Put(c, s, i, src, t).state)
  {
    hide Locate, AbsPath, Put, NotLonger, Backed, AllFree, NoOverlap, Rooted;
    var put := Put(c, s, i, src, t);
    PutShape(c, s, i, src, t);
    if i.name == "" {
      UnnamedKeeps(c, plan, s, i, src, t);
    } else if i.name !in s.names {
      PutFree(c, plan, s, i, src, t);
      PutIndexed(c, plan, s, i, src, t);
      PutRooted(c, s, i, src, t);
    }
  }

  lemma UnnamedKeeps(c: Config, plan: Plan, s: State, i: Item, src: Source, t: Trouble)
    requires i.name == "" && Sound(c, plan, s)
    ensures Sound(c, plan, Put(c, s, i, src, t).state)
  {
    hide Locate, AbsPath, Rooted, PushDir, PushFile;
    SoundSame(c, plan, s, Put(c, s, i, src, t).state);
  }

  lemma SoundSame(c: Config, plan: Plan, s: State, s': State)
    requires Sound(c, plan, s) && s'.nodes == s.nodes && s'.index == s.index && s'.names == s.names
    requires FallbackSound(c, s')
    ensures Sound(c, plan, s')
  {
    hide Locate, AbsPath, Rooted;
    assert forall d | d in s'.index :: Backed(c, plan, s, d) ==> Backed(c, plan, s', d);
  }

  ghost predicate AllPlanned(c: Config, plan: Plan, items: seq<Item>, t: string -> Trouble) {
    forall j | 0 <= j < |items| :: Planned(c, plan, items[j], t(items[j].name))
  }

  lemma {:induction false} RestoreKeeps(c: Config, plan: Plan, s: State, items: seq<Item>, t: string -> Trouble)
    requires IsAbs(c.cwd) && NoOverlap(c, plan) && Sound(c, plan, s) && AllPlanned(c, plan, items, t)
    ensures Sound(c, plan, Restore(c, s, items, t).state)
    decreases |items|
  {
    hide Locate, AbsPath, Put, Sound, NoOverlap, Planned, Fetch;
    if items != [] {
      var i := items[0];
      assert forall j | 0 <= j < |items[1..]| :: items[1..][j] == items[j + 1];
      var data := Fetch(c, s, i.(name := ""));
      if i.name == "" || i.name in s.names || data == Err(NotFound) {
        RestoreKeeps(c, plan, s, items[1..], t);
      } else if data.Ok? {
        PutKeeps(c, plan, s, i, data.value, t(i.name));
        RestoreKeeps(c, plan, Put(c, s, i, data.value, t(i.name)).state, items[1..], t);
      }
    }
  }

  // ---- Runs ----

  datatype Op = PushOp(item: Item, src: Source, troubles: string -> Trouble)
              | AddOp(name: string, mediaType: string, path: string, trouble: Trouble, tree: Tree)

  ghost function Apply(c: Config, s: State, op: Op): State {
    match op
    case PushOp(i, src, t) => Push(c, s, i, src, t).state
    case AddOp(name, mediaType, path, t, tree) => Add(c, s, name, mediaType, path, t, tree).state
  }

  ghost function Run(c: Config, s: State, ops: seq<Op>): State
    decreases |ops|
  {
    if ops == [] then s else Run(c, Apply(c, s, ops[0]), ops[1..])
  }

  /** What is added is no link, and an added file is not one that another name, or its own after a failed add,
      will be written to. */
  ghost predicate AddPlanned(c: Config, plan: Plan, s: State, name: string, path: string, t: Trouble) {
    var from := AddedFrom(c, name, path);
    && ApartFrom(c, plan.names, At(c, t.temp))
    && (from in s.nodes ==> !s.nodes[from].Link?)
    && (from in s.nodes && s.nodes[from].File? ==>
          ApartFrom(c, if t.close then plan.names else plan.names - {name}, from))
  }

  /** An operation that keeps to the plan, with all that it restores. */
  ghost predicate OpPlanned(c: Config, plan: Plan, s: State, op: Op) {
    match op
    case PushOp(i, src, t) =>
      && Planned(c, plan, i, t(i.name))
      && var found := Successors(c, Put(c, s, i, src, t(i.name)).state, i);
         (found.Ok? ==> AllPlanned(c, plan, found.value, t))
    case AddOp(name, _, path, t, _) => AddPlanned(c, plan, s, name, path, t)
  }

  ghost predicate RunPlanned(c: Config, plan: Plan, s: State, ops: seq<Op>)
    decreases |ops|
  {
    ops != [] ==> OpPlanned(c, plan, s, ops[0]) && RunPlanned(c, plan, Apply(c, s, ops[0]), ops[1..])
  }

  lemma PushKeeps(c: Config, plan: Plan, s: State, i: Item, src: Source, t: string -> Trouble)
    requires IsAbs(c.cwd) && NoOverlap(c, plan) && Sound(c, plan, s) && OpPlanned(c, plan, s, PushOp(i, src, t))
    ensures Sound(c, plan, Push(c, s, i, src, t).state)
  {
    hide Locate, AbsPath, Put, Sound, NoOverlap, Planned, Successors, Restore;
    var put := Put(c, s, i, src, t(i.name));
    PutKeeps(c, plan, s, i, src, t(i.name));
    var found := Successors(c, put.state, i);
    if found.Ok? {
      RestoreKeeps(c, plan, put.state, found.value, t);
    }
  }

  lemma AddFileKeeps(c: Config, plan: Plan, s: State, name: string, mediaType: string, path: string, t: Trouble)
    requires Sound(c, plan, s) && At(c, path) in s.nodes && s.nodes[At(c, path)].File?
    requires ApartFrom(c, if t.close then plan.names else plan.names - {name}, At(c, path))
    ensures Sound(c, plan, AddFile(c, s, name, mediaType, path, s.nodes[At(c, path)].data, t).state)
  {
    hide Locate, AbsPath, Rooted, Free;
    var s' := AddFile(c, s, name, mediaType, path, s.nodes[At(c, path)].data, t).state;
    forall d | d in s'.index ensures Backed(c, plan, s', d) {
      assert d in s.index ==> Backed(c, plan, s, d);
    }
  }

  /** A new file, apart from every target, keeps the state sound. */
  lemma NewFileKeeps(c: Config, plan: Plan, s: State, s': State, at: Loc, data: Bytes)
    requires Sound(c, plan, s) && ApartFrom(c, plan.names, at) && Create(s.nodes, at, File([])).Ok?
    requires s'.nodes == s.nodes[at := File(data)] && s'.fallback == s.fallback && s.names <= s'.names
    requires forall d | d in s'.index ::
               (d in s.index && s'.index[d] == s.index[d]) || (At(c, s'.index[d]) == at && c.sha(data) == d)
    ensures Sound(c, plan, s')
  {
    hide Locate, AbsPath;
    assert Rooted(s'.nodes);
    assert AllFree(c, plan, s');
    hide Rooted, AllFree, Apart;
    forall d | d in s'.index ensures Backed(c, plan, s', d) {
      if d in s.index && s'.index[d] == s.index[d] {
        assert Backed(c, plan, s, d);
      }
    }
  }

  lemma AddDirKeeps(c: Config, plan: Plan, s: State, name: string, mediaType: string, tree: Tree, t: Trouble)
    requires Sound(c, plan, s) && ApartFrom(c, plan.names, At(c, t.temp))
    ensures Sound(c, plan, AddDir(c, s, name, mediaType, tree, t).state)
  {
    hide Locate, AbsPath, Sound, ApartFrom;
    var s' := AddDir(c, s, name, mediaType, tree, t).state;
    var at := At(c, t.temp);
    if s' != s {
      NewFileKeeps(c, plan, s, s', at, s'.nodes[at].data);
    }
  }

  lemma AddKeeps(
    c: Config, plan: Plan, s: State, name: string, mediaType: string, path: string, t: Trouble, tree: Tree)
    requires Sound(c, plan, s) && AddPlanned(c, plan, s, name, path, t)
    ensures Sound(c, plan, Add(c, s, name, mediaType, path, t, tree).state)
  {
    hide Locate, AbsPath, Sound, AddDir, AddFile;
    var from := AbsPath(c, if path == "" then name else path);
    if At(c, from) in s.nodes && s.nodes[At(c, from)].File? {
      AddFileKeeps(c, plan, s, name, mediaType, from, t);
    }
    AddDirKeeps(c, plan, s, name, mediaType, tree, t);
  }

  lemma {:induction false} RunKeeps(c: Config, plan: Plan, s: State, ops: seq<Op>)
    requires IsAbs(c.cwd) && NoOverlap(c, plan) && Sound(c, plan, s) && RunPlanned(c, plan, s, ops)
    ensures Sound(c, plan, Run(c, s, ops))
    decreases |ops|
  {
    hide Sound, NoOverlap, Push, Add, OpPlanned;
    if ops != [] {
      match ops[0] {
        case PushOp(i, src, t) =>
          PushKeeps(c, plan, s, i, src, t);
        case AddOp(name, mediaType, path, t, tree) =>
          AddPlannedOp(c, plan, s, ops[0]);
          AddKeeps(c, plan, s, name, mediaType, path, t, tree);
      }
      RunKeeps(c, plan, Apply(c, s, ops[0]), ops[1..]);
    }
  }

  lemma AddPlannedOp(c: Config, plan: Plan, s: State, op: Op)
    requires op.AddOp? && OpPlanned(c, plan, s, op)
    ensures AddPlanned(c, plan, s, op.name, op.path, op.trouble)
  {
  }

  /** A new store over a tree. */
  function New(nodes: Nodes): State {
    State(nodes, map[], {}, {}, map[])
  }

  /** In every run of pushes and adds whose names do not overlap, where no longer file stands at a target,
      each indexed digest leads to a file with exactly that content, whatever failed on the way. */
  lemma RunIndexed(c: Config, plan: Plan, ops: seq<Op>, d: Digest)
    requires IsAbs(c.cwd) && Rooted(plan.before) && NoOverlap(c, plan) && RunPlanned(c, plan, New(plan.before), ops)
    ensures
      var s := Run(c, New(plan.before), ops);
      d in s.index ==>
        var at := At(c, s.index[d]);
        at in s.nodes && s.nodes[at].File? && c.sha(s.nodes[at].data) == d
  {
    hide Locate, AbsPath, Push, Add, NoOverlap;
    RunKeeps(c, plan, New(plan.before), ops);
  }

  /** In a sound state exactly what exists can be fetched, and it has the digest asked for. */
  lemma FetchSound(c: Config, plan: Plan, s: State, i: Item)
    requires Sound(c, plan, s)
    ensures Fetch(c, s, i).Ok? <==> Exists(s, i)
    ensures Fetch(c, s, i).Ok? ==> !Fetch(c, s, i).value.fails && c.sha(Fetch(c, s, i).value.data) == i.digest
  {
    hide Locate, AbsPath, Rooted, AllFree;
    assert i.digest in s.index ==> Backed(c, plan, s, i.digest);
  }

  /** Every run: what exists is what can be fetched, with the digest asked for. */
  lemma RunFetch(c: Config, plan: Plan, ops: seq<Op>, i: Item)
    requires IsAbs(c.cwd) && Rooted(plan.before) && NoOverlap(c, plan) && RunPlanned(c, plan, New(plan.before), ops)
    ensures
      var s := Run(c, New(plan.before), ops);
      && (Fetch(c, s, i).Ok? <==> Exists(s, i))
      && (Fetch(c, s, i).Ok? ==> !Fetch(c, s, i).value.fails && c.sha(Fetch(c, s, i).value.data) == i.digest)
  {
    hide *;
    NewSound(c, plan);
    RunKeeps(c, plan, New(plan.before), ops);
    FetchSound(c, plan, Run(c, New(plan.before), ops), i);
  }

  lemma NewSound(c: Config, plan: Plan)
    requires Rooted(plan.before)
    ensures Sound(c, plan, New(plan.before))
  {
    hide Locate, AbsPath, Rooted;
  }
}
