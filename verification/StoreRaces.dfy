/** Concurrent pushes and adds with all they do to files and to the index. The locks are those of `StoreLocks`;
    under a name's lock every directory, open, chunk of bytes, index entry and archive entry is a step of its
    own, between which any other call may run. */
module StoreRaces {
  import opened GoStrings
  import opened Paths
  import opened Disk
  import opened Archive
  import opened RoundTrip
  import opened StoreSpec
  import opened PushEffects
  import opened StoreResults
  import L = StoreLocks

  type Index = map<Digest, string>

  /** What is written: a named file, an archive to unpack, or the archive of an added directory. */
  datatype Use = Plain | Archived | Gathered

  /** How far the holder of a name's lock has come. `before` is what the file held when it was opened. */
  datatype Job =
    | Begun
    | Resolved(item: Item, src: Source)
    | Opening(item: Item, src: Source, use: Use)
    | Copying(item: Item, src: Source, use: Use, path: string, before: Bytes, done: nat)
    | Extracting(item: Item, headers: seq<Header>, whole: bool)
    | Ended(ok: bool)

  /** The store with its locks. `claimed` are the names that exist or can no longer fail to. */
  datatype Race = Race(
    locks: L.World,
    nodes: Nodes,
    index: Index,
    claimed: set<string>,
    jobs: map<L.Thread, Job>)

  /** How a step's open choices fall: what is pushed or added, what fails, how much is written at once. */
  datatype Luck = Luck(
    item: Item, src: Source, path: string, tree: Tree, fails: bool, close: bool, size: nat, temp: string)

  /** What a step under the lock leaves. */
  datatype Worked = Worked(nodes: Nodes, index: Index, job: Job)

  datatype Turn = Turn(event: L.Event, luck: Luck)

  // ---- Steps ----

  /** Bytes written at an offset. */
  function Splice(data: Bytes, k: nat, chunk: Bytes): Bytes
    requires k <= |data|
  {
    data[..k] + chunk + if k + |chunk| < |data| then data[k + |chunk|..] else []
  }

  /** Writing to an open file; what is written to a link goes elsewhere. */
  function WriteAt(nodes: Nodes, l: Loc, k: nat, chunk: Bytes): Nodes {
    if l in nodes && nodes[l].File? && k <= |nodes[l].data| then nodes[l := File(Splice(nodes[l].data, k, chunk))]
    else nodes
  }

  /** `resolveWritePath`, and the reading of attributes for a file. */
  function BeginPush(c: Config, nodes: Nodes, index: Index, name: string, l: Luck): Worked {
    var i := l.item.(name := name);
    if ResolveWritePath(c, nodes, name).Err? || (!i.unpack && !i.parses) then Worked(nodes, index, Ended(false))
    else Worked(nodes, index, Resolved(i, l.src))
  }

  /** The start of `Add`: a file is indexed where it lies, a directory gets an archive. */
  function BeginAdd(c: Config, nodes: Nodes, index: Index, name: string, l: Luck): Worked {
    var from := AbsPath(c, if l.path == "" then name else l.path);
    if l.fails then Worked(nodes, index, Ended(false))
    else
      match Stat(c, nodes, At(c, from))
      case Ok(File(data)) => Worked(nodes, index[c.sha(data) := from], Ended(!l.close))
      case Ok(Folder) =>
        var gz := c.encode(Listing(name, [], l.tree));
        Worked(
          nodes, index,
          Opening(Item("", c.sha(gz.data), |gz.data|, name, true, "", true), Source(gz.data, false), Gathered))
      case _ => Worked(nodes, index, Ended(false))
  }

  /** `ensureDir` for a target. From here on a plain file counts as pushed whatever fails. */
  function MakeDirs(
    c: Config, nodes: Nodes, index: Index, name: string, i: Item, src: Source, l: Luck): Worked
  {
    var dirs := MkdirAll(nodes, if i.unpack then Target(c, name) else At(c, Dir(AbsPath(c, name))));
    if l.fails || dirs.Err? then Worked(nodes, index, Ended(!i.unpack))
    else Worked(dirs.value, index, Opening(i, src, if i.unpack then Archived else Plain))
  }

  function OpenFile(
    c: Config, nodes: Nodes, index: Index, name: string, i: Item, src: Source, use: Use, l: Luck): Worked
  {
    if use.Plain? then
      var at := Target(c, name);
      var file := Write(nodes, at, [], false);
      if l.fails || file.Err? then Worked(nodes, index, Ended(true))
      else
        var before := if at in nodes && nodes[at].File? then nodes[at].data else [];
        Worked(file.value, index, Copying(i, src, use, AbsPath(c, name), before, 0))
    else
      var temp := Create(nodes, At(c, l.temp), File([]));
      if l.fails || temp.Err? then Worked(nodes, index, Ended(false))
      else Worked(temp.value, index, Copying(i, src, use, l.temp, [], 0))
  }

  /** One chunk, or, when all is written, the verification, the index entry and the closing of the file. */
  function CopyOn(c: Config, nodes: Nodes, index: Index, job: Job, l: Luck): Worked
    requires job.Copying?
  {
    var i, src, all := job.item, job.src, Take(job.src.data, Wanted(job.item));
    if l.fails then Worked(nodes, index, Ended(job.use.Plain?))
    else if job.done < |all| then
      var chunk := Take(all[job.done..], l.size);
      Worked(WriteAt(nodes, At(c, job.path), job.done, chunk), index, job.(done := job.done + |chunk|))
    else if src.fails || |src.data| != Wanted(i) || c.sha(src.data) != i.digest then
      Worked(nodes, index, Ended(job.use.Plain?))
    else
      var index' := index[i.digest := job.path];
      match job.use
      case Plain => Worked(nodes, index', Ended(true))
      case Gathered => Worked(nodes, index', Ended(!l.close))
      case Archived =>
        if l.close || c.decode(src.data).None? then Worked(nodes, index', Ended(false))
        else
          var stream := c.decode(src.data).value;
          Worked(nodes, index', Extracting(i, stream.headers, !stream.torn && c.sums(src.data, i.checksum)))
  }

  ghost function Unpack(c: Config, nodes: Nodes, index: Index, name: string, job: Job): Worked
    requires job.Extracting?
  {
    if job.headers == [] then Worked(nodes, index, Ended(job.whole))
    else
      match ExtractOne(nodes, c.cwd, AbsPath(c, name), name, job.headers[0])
      case None => Worked(nodes, index, Ended(false))
      case Some(n) => Worked(n, index, job.(headers := job.headers[1..]))
  }

  ghost function Work(
    c: Config, nodes: Nodes, index: Index, name: string, adding: bool, job: Job, l: Luck): Worked
  {
    match job
    case Begun => if adding then BeginAdd(c, nodes, index, name, l) else BeginPush(c, nodes, index, name, l)
    case Resolved(i, src) => MakeDirs(c, nodes, index, name, i, src, l)
    case Opening(i, src, use) => OpenFile(c, nodes, index, name, i, src, use, l)
    case Copying(_, _, _, _, _, _) => CopyOn(c, nodes, index, job, l)
    case Extracting(_, _, _) => Unpack(c, nodes, index, name, job)
    case Ended(_) => Worked(nodes, index, job)
  }

  function JobOf(x: Race, t: L.Thread): Job {
    if t in x.jobs then x.jobs[t] else Begun
  }

  /** The name exists, or will once its holder is done. */
  predicate Claims(job: Job) {
    (job.Ended? && job.ok) || (job.Copying? && job.use.Plain?)
  }

  predicate AtWork(x: Race, t: L.Thread) {
    t in x.locks.threads && x.locks.threads[t].Body?
  }

  function NameOf(x: Race, t: L.Thread): string
    requires AtWork(x, t)
  {
    x.locks.threads[t].name
  }

  /** What the lock machine sees of a turn: work to go on with, or a job's end. */
  function Seen(x: Race, e: Turn): L.Event {
    var t := e.event.thread;
    if !AtWork(x, t) then e.event
    else
      var fate := match JobOf(x, t) case Ended(ok) => (if ok then L.Go else L.Stop) case _ => L.Other;
      L.Event(t, e.event.choice.(fate := fate))
  }

  /** A turn with work to do under a lock. */
  predicate Works(x: Race, e: Turn) {
    AtWork(x, e.event.thread) && !JobOf(x, e.event.thread).Ended?
  }

  ghost function WorkOf(c: Config, x: Race, e: Turn): Worked
    requires Works(x, e)
  {
    var pc := x.locks.threads[e.event.thread];
    Work(c, x.nodes, x.index, pc.name, pc.next.Added?, JobOf(x, e.event.thread), e.luck)
  }

  ghost function Step(c: Config, x: Race, e: Turn): Race {
    var t, locks := e.event.thread, L.Step(x.locks, Seen(x, e));
    if Works(x, e) then
      var w := WorkOf(c, x, e);
      Race(
        locks, w.nodes, w.index, if Claims(w.job) then x.claimed + {NameOf(x, t)} else x.claimed, x.jobs[t := w.job])
    else x.(locks := locks, jobs := x.jobs[t := Begun])
  }

  ghost function Run(c: Config, x: Race, es: seq<Turn>): Race
    decreases |es|
  {
    if es == [] then x else Run(c, Step(c, x, es[0]), es[1..])
  }

  ghost function Events(c: Config, x: Race, es: seq<Turn>): seq<L.Event>
    decreases |es|
  {
    if es == [] then [] else [Seen(x, es[0])] + Events(c, Step(c, x, es[0]), es[1..])
  }

  /** Every race is an interleaving of the lock machine, so what is proved of those holds of races. */
  lemma {:induction false} RaceLocks(c: Config, x: Race, es: seq<Turn>)
    ensures Run(c, x, es).locks == L.Run(x.locks, Events(c, x, es))
    decreases |es|
  {
    hide L.Step, Work, Seen;
    if es != [] {
      var rest := Events(c, Step(c, x, es[0]), es[1..]);
      assert ([Seen(x, es[0])] + rest)[1..] == rest;
      RaceLocks(c, Step(c, x, es[0]), es[1..]);
    }
  }

  // ---- What holds at every moment ----

  /** The plan of a race: names that do not overlap, and places for temporary files apart from all of them. */
  ghost predicate PlanOk(c: Config, plan: Plan, temps: set<Loc>) {
    IsAbs(c.cwd) && NoOverlap(c, plan) && forall l | l in temps :: ApartFrom(c, plan.names, l)
  }

  /** What a turn may choose: as `OpPlanned` says of a call, and what is added is no temporary file. */
  ghost predicate TurnPlanned(c: Config, plan: Plan, temps: set<Loc>, x: Race, e: Turn) {
    var t, l := e.event.thread, e.luck;
    AtWork(x, t) ==>
      && (JobOf(x, t).Opening? ==> At(c, l.temp) in temps)
      && (JobOf(x, t).Begun? ==>
            if x.locks.threads[t].next.Added? then AddFits(c, plan, temps, x.nodes, NameOf(x, t), l)
            else PushFits(c, plan, NameOf(x, t), l.item))
  }

  ghost predicate PushFits(c: Config, plan: Plan, name: string, i: Item) {
    name in plan.names && (!i.unpack ==> NotLonger(plan.before, Target(c, name), i.size))
  }

  ghost predicate AddFits(c: Config, plan: Plan, temps: set<Loc>, nodes: Nodes, name: string, l: Luck) {
    var from := AddedFrom(c, name, l.path);
    from in nodes ==>
      && !nodes[from].Link?
      && (nodes[from].File? ==>
            from !in temps && ApartFrom(c, if l.close then plan.names else plan.names - {name}, from))
  }

  ghost predicate RacePlanned(c: Config, plan: Plan, temps: set<Loc>, x: Race, es: seq<Turn>)
    decreases |es|
  {
    es != [] ==> TurnPlanned(c, plan, temps, x, es[0]) && RacePlanned(c, plan, temps, Step(c, x, es[0]), es[1..])
  }

  /** The store as the sequential theorems see it, with the claimed names taken. */
  function View(x: Race): State {
    State(x.nodes, x.index, x.claimed, {}, map[])
  }

  /** What is true of a job while its name is locked. */
  ghost predicate JobTrue(c: Config, plan: Plan, temps: set<Loc>, nodes: Nodes, name: string, job: Job) {
    match job
    case Resolved(i, _) => PushFits(c, plan, name, i)
    case Opening(i, _, use) =>
      && UseTrue(c, plan, nodes, name, use)
      && (use.Plain? ==> PushFits(c, plan, name, i) && !i.unpack)
    case Copying(i, src, use, path, before, done) =>
      && UseTrue(c, plan, nodes, name, use)
      && CopyTrue(nodes, At(c, path), Take(src.data, Wanted(i)), before, done)
      && (if use.Plain? then At(c, path) == Target(c, name) && |before| <= Wanted(i)
          else At(c, path) in temps && before == [])
    case Extracting(_, _, _) => UseTrue(c, plan, nodes, name, Archived)
    case _ => true
  }

  /** Pushed names are planned, and an archive's target is a folder by the time its file is opened. */
  ghost predicate UseTrue(c: Config, plan: Plan, nodes: Nodes, name: string, use: Use) {
    && (!use.Gathered? ==> name in plan.names)
    && (use.Archived? ==> IsFolder(nodes, Target(c, name)))
  }

  /** The open file holds what has been written so far over what it held before. */
  ghost predicate CopyTrue(nodes: Nodes, at: Loc, all: Bytes, before: Bytes, done: nat) {
    done <= |all| && at in nodes && nodes[at] == File(Overlay(before, all[..done]))
  }

  ghost predicate Jobs(c: Config, plan: Plan, temps: set<Loc>, x: Race) {
    forall t | AtWork(x, t) ::
      && JobTrue(c, plan, temps, x.nodes, NameOf(x, t), JobOf(x, t))
      && (Claims(JobOf(x, t)) <==> NameOf(x, t) in x.claimed)
  }

  predicate Writing(x: Race, t: L.Thread) {
    AtWork(x, t) && JobOf(x, t).Copying?
  }

  function PathAt(c: Config, x: Race, t: L.Thread): Loc
    requires Writing(x, t)
  {
    At(c, JobOf(x, t).path)
  }

  /** No open file is indexed, and no two open files are the same. */
  ghost predicate OpenApart(c: Config, x: Race) {
    && (forall t, d | Writing(x, t) && d in x.index :: At(c, x.index[d]) != PathAt(c, x, t))
    && (forall t, u | Writing(x, t) && Writing(x, u) && t != u :: PathAt(c, x, t) != PathAt(c, x, u))
  }

  /** A claimed name exists or is being made to exist. */
  ghost predicate Claimed(x: Race) {
    && x.locks.names <= x.claimed
    && forall n | n in x.claimed && n !in x.locks.names ::
         exists t :: AtWork(x, t) && NameOf(x, t) == n && Claims(JobOf(x, t))
  }

  ghost predicate Inv(c: Config, plan: Plan, temps: set<Loc>, x: Race) {
    && L.Inv(x.locks) && Claimed(x) && Jobs(c, plan, temps, x) && OpenApart(c, x)
    && Rooted(x.nodes) && Indexed(c, plan, View(x)) && AllFree(c, plan, View(x))
  }

  // ---- One step of a job ----

  lemma SpliceOverlay(before: Bytes, all: Bytes, k: nat, n: nat)
    requires k + n <= |all|
    ensures Splice(Overlay(before, all[..k]), k, all[k..k + n]) == Overlay(before, all[..k + n])
  {
    assert all[..k] + all[k..k + n] == all[..k + n];
  }

  /** The one place at which a step of a job may change what is there. */
  function Place(c: Config, name: string, job: Job, l: Luck): Loc {
    if job.Opening? && !job.use.Plain? then At(c, l.temp)
    else if job.Copying? then At(c, job.path)
    else Target(c, name)
  }

  lemma WriteAtTouches(nodes: Nodes, l: Loc, k: nat, chunk: Bytes)
    requires Rooted(nodes)
    ensures Touches(nodes, WriteAt(nodes, l, k, chunk), l, l)
  {
  }

  lemma UnpackTouches(c: Config, nodes: Nodes, name: string, h: Header)
    requires Rooted(nodes) && IsAbs(c.cwd) && IsFolder(nodes, Target(c, name))
    requires ExtractOne(nodes, c.cwd, AbsPath(c, name), name, h).Some?
    ensures
      var at := Target(c, name);
      Touches(nodes, ExtractOne(nodes, c.cwd, AbsPath(c, name), name, h).value, at, at)
  {
    hide Locate, ExtractOne, AbsPath;
    ExtractOneContained(nodes, c.cwd, AbsPath(c, name), name, h);
    ExtractOneNodesStay(nodes, c.cwd, AbsPath(c, name), name, h);
  }

  lemma WorkTouches(
    c: Config, plan: Plan, temps: set<Loc>, nodes: Nodes, index: Index, name: string, adding: bool,
    job: Job, l: Luck)
    requires Rooted(nodes) && IsAbs(c.cwd) && JobTrue(c, plan, temps, nodes, name, job)
    ensures
      var place := Place(c, name, job, l);
      Touches(nodes, Work(c, nodes, index, name, adding, job, l).nodes, place, place)
  {
    hide Locate, AbsPath, Touches, ExtractOne, CopyTrue, PushFits, WriteAt, Dir, MkdirAll, ResolveWritePath, Rooted;
    var place := Place(c, name, job, l);
    TouchesRefl(nodes, place, place);
    match job {
      case Resolved(i, _) =>
        var at := if i.unpack then place else At(c, Dir(AbsPath(c, name)));
        DirNear(c.cwd, AbsPath(c, name));
        if MkdirAll(nodes, at).Ok? {
          MkdirTouches(nodes, at, place, place);
        }
      case Opening(_, _, use) =>
        if use.Plain? {
          if Write(nodes, place, [], false).Ok? {
            WriteTouches(nodes, place, [], place, place);
          }
        } else if Create(nodes, place, File([])).Ok? {
          CreateTouches(nodes, place, place, place);
        }
      case Copying(i, src, _, _, _, done) =>
        var all := Take(src.data, Wanted(i));
        if done < |all| {
          WriteAtTouches(nodes, place, done, Take(all[done..], l.size));
        }
      case Extracting(_, headers, _) =>
        if headers != [] && ExtractOne(nodes, c.cwd, AbsPath(c, name), name, headers[0]).Some? {
          UnpackTouches(c, nodes, name, headers[0]);
        }
      case _ =>
    }
  }

  /** What a free name's target holds when it is opened. */
  lemma OpenFree(plan: Plan, nodes: Nodes, at: Loc, size: int)
    requires Free(plan, nodes, at) && NotLonger(plan.before, at, size) && Write(nodes, at, [], false).Ok?
    ensures
      var before := if at in nodes && nodes[at].File? then nodes[at].data else [];
      && |before| <= (if size < 0 then 0 else size) && Overlay(before, []) == before
      && Write(nodes, at, [], false).value == nodes[at := File(before)]
  {
    var before := if at in nodes && nodes[at].File? then nodes[at].data else [];
    assert Overlay(before, []) == before;
  }

  lemma ChunkTrue(nodes: Nodes, at: Loc, all: Bytes, before: Bytes, done: nat, size: nat)
    requires CopyTrue(nodes, at, all, before, done)
    ensures
      var chunk := Take(all[done..], size);
      CopyTrue(WriteAt(nodes, at, done, chunk), at, all, before, done + |chunk|)
  {
    var n := |Take(all[done..], size)|;
    assert Take(all[done..], size) == all[done..done + n];
    SpliceOverlay(before, all, done, n);
  }

  lemma OpenTrue(
    c: Config, plan: Plan, temps: set<Loc>, nodes: Nodes, index: Index, name: string, i: Item, src: Source,
    use: Use, l: Luck)
    requires Rooted(nodes) && UseTrue(c, plan, nodes, name, use) && At(c, l.temp) in temps
    requires use.Plain? ==> PushFits(c, plan, name, i) && !i.unpack && Free(plan, nodes, Target(c, name))
    ensures
      var w := OpenFile(c, nodes, index, name, i, src, use, l);
      JobTrue(c, plan, temps, w.nodes, name, w.job)
  {
    hide Locate, AbsPath, Free, NotLonger, Rooted;
    var all := Take(src.data, Wanted(i));
    assert all[..0] == [];
    if use.Plain? {
      if Write(nodes, Target(c, name), [], false).Ok? {
        OpenFree(plan, nodes, Target(c, name), i.size);
      }
    } else if Create(nodes, At(c, l.temp), File([])).Ok? {
    }
  }

  lemma UseKept(c: Config, plan: Plan, nodes: Nodes, after: Nodes, place: Loc, name: string, use: Use)
    requires Touches(nodes, after, place, place) && UseTrue(c, plan, nodes, name, use)
    ensures UseTrue(c, plan, after, name, use)
  {
    hide Locate, AbsPath, Rooted;
  }

  lemma CopyOnTrue(
    c: Config, plan: Plan, temps: set<Loc>, nodes: Nodes, index: Index, name: string, job: Job, l: Luck)
    requires Rooted(nodes) && job.Copying? && JobTrue(c, plan, temps, nodes, name, job)
    ensures
      var w := CopyOn(c, nodes, index, job, l);
      JobTrue(c, plan, temps, w.nodes, name, w.job) && (Claims(job) ==> Claims(w.job))
  {
    hide Locate, AbsPath, Overlay, WriteAt, Rooted, UseTrue, Touches;
    var all, at := Take(job.src.data, Wanted(job.item)), At(c, job.path);
    var chunk := Take(all[job.done..], l.size);
    ChunkTrue(nodes, at, all, job.before, job.done, l.size);
    WriteAtTouches(nodes, at, job.done, chunk);
    UseKept(c, plan, nodes, WriteAt(nodes, at, job.done, chunk), at, name, job.use);
  }

  lemma MakeDirsTrue(
    c: Config, plan: Plan, temps: set<Loc>, nodes: Nodes, index: Index, name: string, i: Item, src: Source,
    l: Luck)
    requires PushFits(c, plan, name, i)
    ensures
      var w := MakeDirs(c, nodes, index, name, i, src, l);
      JobTrue(c, plan, temps, w.nodes, name, w.job)
  {
    hide Locate, AbsPath, NotLonger, Dir;
    if i.unpack && MkdirAll(nodes, Target(c, name)).Ok? {
      MkdirAllAdds(nodes, Target(c, name));
    }
  }

  lemma UnpackTrue(
    c: Config, plan: Plan, temps: set<Loc>, nodes: Nodes, index: Index, name: string, job: Job)
    requires Rooted(nodes) && IsAbs(c.cwd) && job.Extracting? && JobTrue(c, plan, temps, nodes, name, job)
    ensures
      var w := Unpack(c, nodes, index, name, job);
      JobTrue(c, plan, temps, w.nodes, name, w.job)
  {
    hide Locate, AbsPath, ExtractOne, Rooted;
    if job.headers != [] && ExtractOne(nodes, c.cwd, AbsPath(c, name), name, job.headers[0]).Some? {
      UnpackTouches(c, nodes, name, job.headers[0]);
    }
  }

  lemma UsePlanned(c: Config, plan: Plan, nodes: Nodes, name: string, use: Use)
    requires UseTrue(c, plan, nodes, name, use)
    ensures use.Plain? ==> name in plan.names
  {
  }

  lemma BeginTrue(
    c: Config, plan: Plan, temps: set<Loc>, nodes: Nodes, index: Index, name: string, l: Luck)
    ensures
      var w := BeginAdd(c, nodes, index, name, l);
      JobTrue(c, plan, temps, w.nodes, name, w.job)
    ensures
      var w := BeginPush(c, nodes, index, name, l);
      PushFits(c, plan, name, l.item) ==> JobTrue(c, plan, temps, w.nodes, name, w.job)
  {
    hide Locate, AbsPath, ResolveWritePath, Listing, NotLonger;
  }

  /** After its own step a job's record is true again, and what it claimed stays claimed. */
  lemma WorkTrue(
    c: Config, plan: Plan, temps: set<Loc>, nodes: Nodes, index: Index, name: string, adding: bool,
    job: Job, l: Luck)
    requires Rooted(nodes) && IsAbs(c.cwd) && JobTrue(c, plan, temps, nodes, name, job) && !job.Ended?
    requires job.Opening? ==> At(c, l.temp) in temps
    requires job.Begun? && !adding ==> PushFits(c, plan, name, l.item)
    requires name in plan.names && !Claims(job) ==> Free(plan, nodes, Target(c, name))
    ensures
      var w := Work(c, nodes, index, name, adding, job, l);
      JobTrue(c, plan, temps, w.nodes, name, w.job) && (Claims(job) ==> Claims(w.job))
  {
    hide Locate, AbsPath, CopyTrue, UseTrue, PushFits, Free, Rooted, MakeDirs, OpenFile, CopyOn, Unpack, BeginAdd;
    hide BeginPush;
    match job {
      case Resolved(i, src) =>
        MakeDirsTrue(c, plan, temps, nodes, index, name, i, src, l);
      case Opening(i, src, use) =>
        UsePlanned(c, plan, nodes, name, use);
        OpenTrue(c, plan, temps, nodes, index, name, i, src, use, l);
      case Copying(_, _, _, _, _, _) =>
        CopyOnTrue(c, plan, temps, nodes, index, name, job, l);
      case Extracting(_, _, _) =>
        UnpackTrue(c, plan, temps, nodes, index, name, job);
      case Begun =>
        BeginTrue(c, plan, temps, nodes, index, name, l);
    }
  }

  /** A place other than a free name's target leaves what is there alone. */
  lemma FreeBeside(plan: Plan, nodes: Nodes, after: Nodes, at: Loc, place: Loc)
    requires Free(plan, nodes, at) && Touches(nodes, after, place, place) && Apart(place, at)
    ensures Free(plan, after, at)
  {
    hide Rooted, NodesStay;
    FreeApart(plan, nodes, after, at, place, place);
  }

  /** A step that leaves its name free leaves there what was there, or a folder. */
  lemma WorkFree(
    c: Config, plan: Plan, temps: set<Loc>, nodes: Nodes, index: Index, name: string, adding: bool,
    job: Job, l: Luck)
    requires Rooted(nodes) && IsAbs(c.cwd) && JobTrue(c, plan, temps, nodes, name, job)
    requires name in plan.names && !Claims(job) && Free(plan, nodes, Target(c, name))
    requires (job.Opening? || job.Copying?) && !job.use.Plain? ==> Apart(Place(c, name, job, l), Target(c, name))
    ensures
      var w := Work(c, nodes, index, name, adding, job, l);
      Claims(w.job) || Free(plan, w.nodes, Target(c, name))
  {
    hide Locate, AbsPath, ExtractOne, CopyTrue, WriteAt, Dir, ResolveWritePath, NotLonger, Rooted, Touches, Free;
    hide MkdirAll;
    var place, at := Place(c, name, job, l), Target(c, name);
    WorkTouches(c, plan, temps, nodes, index, name, adding, job, l);
    var after := Work(c, nodes, index, name, adding, job, l).nodes;
    match job {
      case Resolved(i, _) =>
        var dir := if i.unpack then at else At(c, Dir(AbsPath(c, name)));
        if MkdirAll(nodes, dir).Ok? {
          MkdirFree(plan, nodes, dir, at);
        }
      case Extracting(_, _, _) =>
        StaysFolder(nodes, after, place, at);
        FreeFolder(plan, nodes, after, at);
      case _ =>
        if place != at {
          FreeBeside(plan, nodes, after, at, place);
        }
    }
  }

  lemma MkdirFree(plan: Plan, nodes: Nodes, dir: Loc, at: Loc)
    requires Free(plan, nodes, at) && MkdirAll(nodes, dir).Ok?
    ensures Free(plan, MkdirAll(nodes, dir).value, at)
  {
    MkdirAllAdds(nodes, dir);
  }

  lemma StaysFolder(nodes: Nodes, after: Nodes, place: Loc, at: Loc)
    requires Touches(nodes, after, place, place) && IsFolder(nodes, at)
    ensures IsFolder(after, at)
  {
  }

  /** What a new index entry leads to: a file with that digest, apart from the targets of all names that may
      still be written. */
  ghost predicate Entered(
    c: Config, plan: Plan, temps: set<Loc>, nodes: Nodes, name: string, job: Job, after: Job, d: Digest, path: string)
  {
    var at := At(c, path);
    && at in nodes && nodes[at].File? && c.sha(nodes[at].data) == d && !after.Copying?
    && ApartFrom(c, plan.names - (if Claims(after) then {name} else {}), at)
    && if job.Copying? then path == job.path else at !in temps && ApartFrom(c, plan.names - {name}, at)
  }

  lemma AddIndex(
    c: Config, plan: Plan, temps: set<Loc>, nodes: Nodes, index: Index, name: string, l: Luck)
    returns (d: Digest, path: string)
    requires AddFits(c, plan, temps, nodes, name, l)
    ensures
      var w := BeginAdd(c, nodes, index, name, l);
      w.index == index
      || (w.nodes == nodes && w.index == index[d := path]
          && Entered(c, plan, temps, nodes, name, Begun, w.job, d, path))
  {
    hide Locate, AbsPath, Apart, Listing;
    d, path := "", AbsPath(c, if l.path == "" then name else l.path);
    if At(c, path) in nodes && nodes[At(c, path)].File? {
      d := c.sha(nodes[At(c, path)].data);
    }
  }

  /** A copy that has come to its end left exactly the verified content. */
  lemma CopyIndex(
    c: Config, plan: Plan, temps: set<Loc>, nodes: Nodes, index: Index, name: string, job: Job, l: Luck)
    requires PlanOk(c, plan, temps) && job.Copying? && JobTrue(c, plan, temps, nodes, name, job)
    ensures
      var w, d, path := CopyOn(c, nodes, index, job, l), job.item.digest, job.path;
      w.index == index
      || (w.nodes == nodes && w.index == index[d := path] && Entered(c, plan, temps, nodes, name, job, w.job, d, path))
  {
    hide Locate, AbsPath, WriteAt, Apart, NotLonger;
    var all := Take(job.src.data, Wanted(job.item));
    if job.done == |all| {
      assert all[..job.done] == all;
    }
  }

  /** A step enters into the index nothing, or a file that it leaves as it is. */
  lemma WorkIndex(
    c: Config, plan: Plan, temps: set<Loc>, nodes: Nodes, index: Index, name: string, adding: bool,
    job: Job, l: Luck)
    returns (d: Digest, path: string)
    requires PlanOk(c, plan, temps) && JobTrue(c, plan, temps, nodes, name, job)
    requires job.Begun? && adding ==> AddFits(c, plan, temps, nodes, name, l)
    ensures
      var w := Work(c, nodes, index, name, adding, job, l);
      w.index == index
      || (w.nodes == nodes && w.index == index[d := path] && Entered(c, plan, temps, nodes, name, job, w.job, d, path))
  {
    hide Locate, AbsPath, ExtractOne, Dir, ResolveWritePath, MkdirAll, Entered, BeginAdd, CopyOn, AddFits, PlanOk;
    hide UseTrue, CopyTrue;
    d, path := "", "";
    if job.Begun? && adding {
      d, path := AddIndex(c, plan, temps, nodes, index, name, l);
    } else if job.Copying? {
      d, path := job.item.digest, job.path;
      CopyIndex(c, plan, temps, nodes, index, name, job, l);
    }
  }

  /** In a rooted tree nothing lies below a file, or below what is not there. */
  lemma NothingUnder(nodes: Nodes, at: Loc, l: Loc)
    requires Rooted(nodes) && l in nodes && at <= l && (at !in nodes || nodes[at].File?)
    ensures l == at
  {
    if at < l {
      AboveIsFolder(nodes, l, at);
    }
  }

  /** A step leaves every file alone that is not its own. */
  lemma WorkKeepsFile(
    c: Config, plan: Plan, temps: set<Loc>, nodes: Nodes, index: Index, name: string, adding: bool,
    job: Job, l: Luck, file: Loc)
    requires Rooted(nodes) && IsAbs(c.cwd) && JobTrue(c, plan, temps, nodes, name, job)
    requires file in nodes && nodes[file].File?
    requires if job.Copying? then file != At(c, job.path) else name in plan.names ==> Apart(file, Target(c, name))
    ensures
      var after := Work(c, nodes, index, name, adding, job, l).nodes;
      file in after && after[file] == nodes[file]
  {
    hide Locate, AbsPath, ExtractOne, WriteAt, Dir, ResolveWritePath, NotLonger, MkdirAll, Rooted, Overlay;
    var place := Place(c, name, job, l);
    WorkTouches(c, plan, temps, nodes, index, name, adding, job, l);
    if place <= file && (job.Copying? || place !in nodes) {
      NothingUnder(nodes, place, file);
    }
  }

  /** A job's record stays true while its open file and the folders stay. */
  lemma JobKept(c: Config, plan: Plan, temps: set<Loc>, nodes: Nodes, after: Nodes, place: Loc, name: string, job: Job)
    requires Touches(nodes, after, place, place) && JobTrue(c, plan, temps, nodes, name, job)
    requires job.Copying? ==> var at := At(c, job.path); at in nodes ==> at in after && after[at] == nodes[at]
    ensures JobTrue(c, plan, temps, after, name, job)
  {
    hide Locate, AbsPath, Overlay, NotLonger, Touches;
    if job.Copying? || job.Opening? {
      UseKept(c, plan, nodes, after, place, name, job.use);
    }
    if job.Extracting? {
      UseKept(c, plan, nodes, after, place, name, Archived);
    }
  }

  // ---- What every turn keeps ----

  /** No two calls are at work on one name. */
  lemma OneHolder(x: Race, t: L.Thread, u: L.Thread)
    requires L.Inv(x.locks) && AtWork(x, t) && AtWork(x, u) && t != u
    ensures NameOf(x, t) != NameOf(x, u)
  {
    hide L.Told, L.MutexTrue;
    if NameOf(x, t) == NameOf(x, u) {
      assert L.LockTrue(x.locks, NameOf(x, t));
      L.OneOwner(x.locks, t, u, NameOf(x, t));
    }
  }

  /** Work under the lock is one thread's business. */
  lemma WorkLocks(x: Race, e: Turn)
    requires Works(x, e)
    ensures
      var after := L.Step(x.locks, Seen(x, e));
      after.threads == x.locks.threads && after.names == x.locks.names
  {
  }

  /** What a turn of work starts from, without the parts that its lemmas name on their own. */
  ghost predicate Ready(c: Config, plan: Plan, temps: set<Loc>, x: Race, e: Turn) {
    && PlanOk(c, plan, temps) && TurnPlanned(c, plan, temps, x, e) && Works(x, e)
    && L.Inv(x.locks) && Jobs(c, plan, temps, x) && Rooted(x.nodes)
  }

  lemma ReadyTouches(c: Config, plan: Plan, temps: set<Loc>, x: Race, e: Turn)
    requires Ready(c, plan, temps, x, e)
    ensures
      var place := Place(c, NameOf(x, e.event.thread), JobOf(x, e.event.thread), e.luck);
      Touches(x.nodes, WorkOf(c, x, e).nodes, place, place)
  {
    hide Work, Place, Touches, NoOverlap, JobTrue, L.Inv, Claims;
    var t := e.event.thread;
    WorkTouches(
      c, plan, temps, x.nodes, x.index, NameOf(x, t), x.locks.threads[t].next.Added?, JobOf(x, t), e.luck);
  }

  /** Another call's open file is apart from where this one works. */
  lemma OthersApart(c: Config, plan: Plan, temps: set<Loc>, x: Race, t: L.Thread, u: L.Thread)
    requires PlanOk(c, plan, temps) && L.Inv(x.locks) && Jobs(c, plan, temps, x)
    requires AtWork(x, t) && Writing(x, u) && t != u
    ensures PathAt(c, x, u) in x.nodes && x.nodes[PathAt(c, x, u)].File?
    ensures NameOf(x, t) in plan.names ==> Apart(PathAt(c, x, u), Target(c, NameOf(x, t)))
  {
    hide Locate, AbsPath, L.Inv, Overlay, Claims;
    OneHolder(x, t, u);
  }

  lemma JobsKeep(c: Config, plan: Plan, temps: set<Loc>, x: Race, e: Turn)
    requires Ready(c, plan, temps, x, e) && OpenApart(c, x) && AllFree(c, plan, View(x))
    ensures Jobs(c, plan, temps, Step(c, x, e))
  {
    hide Work, Place, Touches, NoOverlap, JobTrue, L.Inv, Rooted, ApartFrom, PushFits, AddFits, L.Step, Free;
    hide Locate, AbsPath, Claims;
    var t, x' := e.event.thread, Step(c, x, e);
    var name, job, adding, w := NameOf(x, t), JobOf(x, t), x.locks.threads[t].next.Added?, WorkOf(c, x, e);
    WorkLocks(x, e);
    WorkTrue(c, plan, temps, x.nodes, x.index, name, adding, job, e.luck);
    ReadyTouches(c, plan, temps, x, e);
    forall u | AtWork(x', u)
      ensures JobTrue(c, plan, temps, x'.nodes, NameOf(x', u), JobOf(x', u))
      ensures Claims(JobOf(x', u)) <==> NameOf(x', u) in x'.claimed
    {
      if u != t {
        OneHolder(x, t, u);
        if Writing(x, u) {
          OthersApart(c, plan, temps, x, t, u);
          assert job.Copying? ==> PathAt(c, x, u) != PathAt(c, x, t);
          WorkKeepsFile(c, plan, temps, x.nodes, x.index, name, adding, job, e.luck, PathAt(c, x, u));
        }
        JobKept(c, plan, temps, x.nodes, w.nodes, Place(c, name, job, e.luck), NameOf(x, u), JobOf(x, u));
      }
    }
  }

  /** What is indexed is a file that this turn's work leaves alone. */
  lemma IndexedStays(c: Config, plan: Plan, temps: set<Loc>, x: Race, e: Turn, d: Digest)
    requires Ready(c, plan, temps, x, e) && OpenApart(c, x) && d in x.index && Backed(c, plan, View(x), d)
    ensures
      var at, after := At(c, x.index[d]), WorkOf(c, x, e).nodes;
      at in x.nodes && at in after && after[at] == x.nodes[at]
  {
    hide Work, Place, Touches, NoOverlap, JobTrue, L.Inv, Rooted, PushFits, AddFits, L.Step, Free, Locate, AbsPath;
    var t := e.event.thread;
    var name, job, adding := NameOf(x, t), JobOf(x, t), x.locks.threads[t].next.Added?;
    assert job.Copying? ==> At(c, x.index[d]) != PathAt(c, x, t);
    if !job.Copying? {
      ClaimedCopy(c, plan, temps, x, t);
    }
    WorkKeepsFile(c, plan, temps, x.nodes, x.index, name, adding, job, e.luck, At(c, x.index[d]));
  }

  lemma ClaimedCopy(c: Config, plan: Plan, temps: set<Loc>, x: Race, t: L.Thread)
    requires Jobs(c, plan, temps, x) && AtWork(x, t) && !JobOf(x, t).Copying? && !JobOf(x, t).Ended?
    ensures NameOf(x, t) !in x.claimed
  {
    hide JobTrue;
  }

  lemma IndexedKeeps(c: Config, plan: Plan, temps: set<Loc>, x: Race, e: Turn)
    requires Ready(c, plan, temps, x, e) && OpenApart(c, x) && Indexed(c, plan, View(x))
    ensures Indexed(c, plan, View(Step(c, x, e)))
  {
    hide Work, Place, Touches, NoOverlap, JobTrue, L.Inv, Rooted, PushFits, AddFits, L.Step, Free, Locate, AbsPath;
    hide Claims, TurnPlanned, Apart;
    var t, x', w := e.event.thread, Step(c, x, e), WorkOf(c, x, e);
    var d', path := NewEntry(c, plan, temps, x, e);
    forall d | d in x'.index ensures Backed(c, plan, View(x'), d) {
      if d in x.index && w.index[d] == x.index[d] {
        assert Backed(c, plan, View(x), d);
        IndexedStays(c, plan, temps, x, e, d);
      }
    }
  }

  lemma NewEntry(c: Config, plan: Plan, temps: set<Loc>, x: Race, e: Turn) returns (d: Digest, path: string)
    requires Ready(c, plan, temps, x, e)
    ensures
      var t, w := e.event.thread, WorkOf(c, x, e);
      w.index == x.index
      || (w.nodes == x.nodes && w.index == x.index[d := path]
          && Entered(c, plan, temps, x.nodes, NameOf(x, t), JobOf(x, t), w.job, d, path))
  {
    hide Work, Place, Touches, JobTrue, L.Inv, Rooted, PushFits, AddFits, L.Step, Locate, AbsPath, Entered, NoOverlap;
    var t := e.event.thread;
    d, path := WorkIndex(
      c, plan, temps, x.nodes, x.index, NameOf(x, t), x.locks.threads[t].next.Added?, JobOf(x, t), e.luck);
  }

  /** A file is opened at a free name's target or where nothing was. */
  lemma OpenedPath(
    c: Config, plan: Plan, temps: set<Loc>, nodes: Nodes, index: Index, name: string, adding: bool,
    job: Job, l: Luck)
    requires JobTrue(c, plan, temps, nodes, name, job) && Work(c, nodes, index, name, adding, job, l).job.Copying?
    ensures
      var w := Work(c, nodes, index, name, adding, job, l);
      && w.index == index
      && if job.Copying? then w.job.path == job.path
         else job.Opening?
              && (At(c, w.job.path) !in nodes || (name in plan.names && At(c, w.job.path) == Target(c, name)))
  {
    hide Locate, AbsPath, ExtractOne, WriteAt, Dir, ResolveWritePath, NotLonger, MkdirAll;
  }

  /** What an open file's path is by its job's record. */
  lemma OpenPath(c: Config, plan: Plan, temps: set<Loc>, x: Race, u: L.Thread)
    requires Jobs(c, plan, temps, x) && Writing(x, u)
    ensures PathAt(c, x, u) in x.nodes
    ensures PathAt(c, x, u) in temps || (NameOf(x, u) in plan.names && PathAt(c, x, u) == Target(c, NameOf(x, u)))
  {
    hide Locate, AbsPath, Overlay, Claims;
  }

  lemma IndexApart(c: Config, plan: Plan, temps: set<Loc>, x: Race, e: Turn, u: L.Thread, d: Digest)
    requires Ready(c, plan, temps, x, e) && OpenApart(c, x) && Indexed(c, plan, View(x))
    requires u != e.event.thread && Writing(x, u) && d in WorkOf(c, x, e).index
    ensures At(c, WorkOf(c, x, e).index[d]) != PathAt(c, x, u)
  {
    hide Work, Place, Touches, NoOverlap, JobTrue, L.Inv, Rooted, PushFits, AddFits, Free, Locate, AbsPath, TurnPlanned;
    hide Claims, Backed, Jobs;
    var t, w := e.event.thread, WorkOf(c, x, e);
    var d', path := NewEntry(c, plan, temps, x, e);
    OpenPath(c, plan, temps, x, u);
    OneHolder(x, t, u);
    if d in x.index && w.index[d] == x.index[d] {
    } else if JobOf(x, t).Copying? {
      assert PathAt(c, x, t) != PathAt(c, x, u);
    }
  }

  lemma OwnApart(c: Config, plan: Plan, temps: set<Loc>, x: Race, e: Turn, d: Digest)
    requires Ready(c, plan, temps, x, e) && OpenApart(c, x) && Indexed(c, plan, View(x))
    requires WorkOf(c, x, e).job.Copying? && d in WorkOf(c, x, e).index
    ensures At(c, WorkOf(c, x, e).index[d]) != At(c, WorkOf(c, x, e).job.path)
  {
    hide Work, Place, Touches, NoOverlap, JobTrue, L.Inv, Rooted, PushFits, AddFits, Free, Locate, AbsPath, TurnPlanned;
    hide Claims;
    var t, w := e.event.thread, WorkOf(c, x, e);
    var name, job, adding := NameOf(x, t), JobOf(x, t), x.locks.threads[t].next.Added?;
    OpenedPath(c, plan, temps, x.nodes, x.index, name, adding, job, e.luck);
    assert Backed(c, plan, View(x), d);
    if job.Copying? {
      assert At(c, x.index[d]) != PathAt(c, x, t);
    } else {
      ClaimedCopy(c, plan, temps, x, t);
    }
  }

  lemma OwnFileApart(c: Config, plan: Plan, temps: set<Loc>, x: Race, e: Turn, u: L.Thread)
    requires Ready(c, plan, temps, x, e) && OpenApart(c, x) && u != e.event.thread && Writing(x, u)
    requires WorkOf(c, x, e).job.Copying?
    ensures At(c, WorkOf(c, x, e).job.path) != PathAt(c, x, u)
  {
    hide Work, Place, Touches, NoOverlap, JobTrue, L.Inv, Rooted, PushFits, AddFits, Free, Locate, AbsPath, TurnPlanned;
    hide Claims;
    var t, w := e.event.thread, WorkOf(c, x, e);
    var name, job, adding := NameOf(x, t), JobOf(x, t), x.locks.threads[t].next.Added?;
    OpenedPath(c, plan, temps, x.nodes, x.index, name, adding, job, e.luck);
    OthersApart(c, plan, temps, x, t, u);
    if job.Copying? {
      assert PathAt(c, x, t) != PathAt(c, x, u);
    }
  }

  lemma OpenApartKeeps(c: Config, plan: Plan, temps: set<Loc>, x: Race, e: Turn)
    requires Ready(c, plan, temps, x, e) && OpenApart(c, x) && Indexed(c, plan, View(x))
    ensures OpenApart(c, Step(c, x, e))
  {
    hide Work, Place, Touches, NoOverlap, JobTrue, L.Inv, Rooted, PushFits, AddFits, L.Step, Free, Locate, AbsPath;
    hide TurnPlanned, Claims, Entered, Jobs, PlanOk, Backed;
    var x' := Step(c, x, e);
    WorkLocks(x, e);
    forall u, d | Writing(x', u) && d in x'.index ensures At(c, x'.index[d]) != PathAt(c, x', u) {
      if u == e.event.thread {
        OwnApart(c, plan, temps, x, e, d);
      } else {
        IndexApart(c, plan, temps, x, e, u, d);
      }
    }
    forall u, v | Writing(x', u) && Writing(x', v) && u != v ensures PathAt(c, x', u) != PathAt(c, x', v) {
      if u == e.event.thread {
        OwnFileApart(c, plan, temps, x, e, v);
      } else if v == e.event.thread {
        OwnFileApart(c, plan, temps, x, e, u);
      } else {
        assert PathAt(c, x, u) != PathAt(c, x, v);
      }
    }
  }

  lemma FreeKeeps(c: Config, plan: Plan, temps: set<Loc>, x: Race, e: Turn)
    requires Ready(c, plan, temps, x, e) && AllFree(c, plan, View(x))
    ensures AllFree(c, plan, View(Step(c, x, e)))
  {
    hide Work, Place, Touches, NoOverlap, JobTrue, L.Inv, Rooted, PushFits, AddFits, L.Step, Free, Locate, AbsPath;
    hide Claims, Apart;
    var t, x', w := e.event.thread, Step(c, x, e), WorkOf(c, x, e);
    var name, job, adding := NameOf(x, t), JobOf(x, t), x.locks.threads[t].next.Added?;
    ReadyTouches(c, plan, temps, x, e);
    forall n | n in plan.names && n !in x'.claimed ensures Free(plan, x'.nodes, Target(c, n)) {
      assert Free(plan, x.nodes, Target(c, n));
      PlaceApart(c, plan, temps, x, e, n);
      if n == name {
        WorkFree(c, plan, temps, x.nodes, x.index, name, adding, job, e.luck);
      } else if w.nodes != x.nodes {
        FreeBeside(plan, x.nodes, w.nodes, Target(c, n), Place(c, name, job, e.luck));
      }
    }
  }

  /** Work is apart from the targets of all other names, and for a temporary file from its own as well. */
  lemma PlaceApart(c: Config, plan: Plan, temps: set<Loc>, x: Race, e: Turn, n: string)
    requires Ready(c, plan, temps, x, e) && n in plan.names
    ensures
      var t := e.event.thread;
      var job := JobOf(x, t);
      var place := Place(c, NameOf(x, t), job, e.luck);
      && ((job.Opening? || job.Copying?) && !job.use.Plain? ==> Apart(place, Target(c, n)))
      && (n != NameOf(x, t) && WorkOf(c, x, e).nodes != x.nodes ==> Apart(place, Target(c, n)))
  {
    hide Locate, AbsPath, L.Inv, Overlay, Claims, Rooted, Dir, MkdirAll, ResolveWritePath, ExtractOne, WriteAt;
    hide NotLonger;
  }

  lemma ClaimedKeeps(c: Config, plan: Plan, temps: set<Loc>, x: Race, e: Turn)
    requires Ready(c, plan, temps, x, e) && Claimed(x) && AllFree(c, plan, View(x))
    ensures Claimed(Step(c, x, e))
  {
    hide Work, NoOverlap, JobTrue, L.Inv, Rooted, PushFits, AddFits, L.Step, Free, Locate, AbsPath, Claims;
    var t, x', w := e.event.thread, Step(c, x, e), WorkOf(c, x, e);
    WorkLocks(x, e);
    WorkTrue(
      c, plan, temps, x.nodes, x.index, NameOf(x, t), x.locks.threads[t].next.Added?, JobOf(x, t), e.luck);
    forall n | n in x'.claimed && n !in x'.locks.names
      ensures exists u :: AtWork(x', u) && NameOf(x', u) == n && Claims(JobOf(x', u))
    {
      if n in x.claimed {
        var u :| AtWork(x, u) && NameOf(x, u) == n && Claims(JobOf(x, u));
        assert AtWork(x', u) && NameOf(x', u) == n && Claims(JobOf(x', u));
      } else {
        assert AtWork(x', t) && NameOf(x', t) == n && Claims(JobOf(x', t));
      }
    }
  }

  /** A turn of work keeps everything. */
  lemma WorkKeeps(c: Config, plan: Plan, temps: set<Loc>, x: Race, e: Turn)
    requires PlanOk(c, plan, temps) && Inv(c, plan, temps, x) && TurnPlanned(c, plan, temps, x, e) && Works(x, e)
    ensures Inv(c, plan, temps, Step(c, x, e))
  {
    hide Work, Place, NoOverlap, Jobs, Claimed, OpenApart, Indexed, AllFree, L.Inv, Rooted, L.Step, TurnPlanned;
    L.StepKeeps(x.locks, Seen(x, e));
    ClaimedKeeps(c, plan, temps, x, e);
    JobsKeep(c, plan, temps, x, e);
    OpenApartKeeps(c, plan, temps, x, e);
    IndexedKeeps(c, plan, temps, x, e);
    FreeKeeps(c, plan, temps, x, e);
    ReadyTouches(c, plan, temps, x, e);
  }

  /** What a turn without work does to the locks. */
  lemma OtherLocks(x: Race, e: Turn, u: L.Thread)
    requires !Works(x, e)
    ensures
      var t, after := e.event.thread, L.Step(x.locks, Seen(x, e));
      && (u != t ==> (u in after.threads <==> u in x.locks.threads)
                     && (u in after.threads ==> after.threads[u] == x.locks.threads[u]))
      && (AtWork(x, t) ==> t in after.threads && !after.threads[t].Body?)
      && after.names == x.locks.names + if AtWork(x, t) && Claims(JobOf(x, t)) then {NameOf(x, t)} else {}
  {
  }

  /** A call that gets a name's lock and finds the name free finds it unclaimed. */
  lemma EntersUnclaimed(c: Config, plan: Plan, temps: set<Loc>, x: Race, e: Turn)
    requires Inv(c, plan, temps, x) && !Works(x, e) && AtWork(Step(c, x, e), e.event.thread)
    ensures NameOf(Step(c, x, e), e.event.thread) !in x.claimed
  {
    hide Jobs, OpenApart, Indexed, AllFree, Rooted, L.Step, L.Inv;
    var t, x' := e.event.thread, Step(c, x, e);
    var name := NameOf(x', t);
    OtherLocks(x, e, t);
    L.StepKeeps(x.locks, Seen(x, e));
    BodyFree(x', t);
    if name in x.claimed {
      var u :| AtWork(x, u) && NameOf(x, u) == name && Claims(JobOf(x, u));
      OtherLocks(x, e, u);
      OneHolder(x', t, u);
    }
  }

  lemma BodyFree(x: Race, t: L.Thread)
    requires L.Inv(x.locks) && AtWork(x, t)
    ensures NameOf(x, t) !in x.locks.names
  {
    hide L.LockTrue, L.MutexTrue, L.Numbered, L.RejectedIdle, L.OneSuccess, L.NamesTrue, L.Open;
  }

  lemma OtherClaimed(c: Config, plan: Plan, temps: set<Loc>, x: Race, e: Turn)
    requires Inv(c, plan, temps, x) && !Works(x, e)
    ensures Claimed(Step(c, x, e))
  {
    hide OpenApart, Indexed, AllFree, Rooted, L.Step, L.Inv, JobTrue;
    var t, x' := e.event.thread, Step(c, x, e);
    OtherLocks(x, e, t);
    forall n | n in x'.claimed && n !in x'.locks.names
      ensures exists u :: AtWork(x', u) && NameOf(x', u) == n && Claims(JobOf(x', u))
    {
      var u :| AtWork(x, u) && NameOf(x, u) == n && Claims(JobOf(x, u));
      OtherLocks(x, e, u);
      assert AtWork(x', u) && NameOf(x', u) == n && Claims(JobOf(x', u));
    }
  }

  lemma OtherJobs(c: Config, plan: Plan, temps: set<Loc>, x: Race, e: Turn)
    requires Inv(c, plan, temps, x) && !Works(x, e)
    ensures Jobs(c, plan, temps, Step(c, x, e)) && OpenApart(c, Step(c, x, e))
  {
    hide Indexed, AllFree, Rooted, L.Step, L.Inv, UseTrue, PushFits, CopyTrue, Claimed, Locate, AbsPath;
    var t, x' := e.event.thread, Step(c, x, e);
    forall u | AtWork(x', u)
      ensures JobTrue(c, plan, temps, x'.nodes, NameOf(x', u), JobOf(x', u))
      ensures Claims(JobOf(x', u)) <==> NameOf(x', u) in x'.claimed
      ensures u != t ==> AtWork(x, u) && JobOf(x, u) == JobOf(x', u)
    {
      OtherLocks(x, e, u);
      if u == t {
        EntersUnclaimed(c, plan, temps, x, e);
      } else {
        assert AtWork(x, u) && NameOf(x', u) == NameOf(x, u) && JobOf(x', u) == JobOf(x, u);
      }
    }
    assert forall u | Writing(x', u) :: u != t && Writing(x, u) && PathAt(c, x', u) == PathAt(c, x, u);
  }

  /** A turn that only takes or gives locks, or ends a job, keeps everything. */
  lemma OtherKeeps(c: Config, plan: Plan, temps: set<Loc>, x: Race, e: Turn)
    requires Inv(c, plan, temps, x) && !Works(x, e)
    ensures Inv(c, plan, temps, Step(c, x, e))
  {
    hide Jobs, Claimed, OpenApart, Indexed, AllFree, L.Inv, Rooted, L.Step;
    L.StepKeeps(x.locks, Seen(x, e));
    OtherClaimed(c, plan, temps, x, e);
    OtherJobs(c, plan, temps, x, e);
  }

  lemma {:induction false} RaceKeeps(c: Config, plan: Plan, temps: set<Loc>, x: Race, es: seq<Turn>)
    requires PlanOk(c, plan, temps) && Inv(c, plan, temps, x) && RacePlanned(c, plan, temps, x, es)
    ensures Inv(c, plan, temps, Run(c, x, es))
    decreases |es|
  {
    hide Inv, PlanOk, Step, TurnPlanned;
    if es != [] {
      if Works(x, es[0]) {
        WorkKeeps(c, plan, temps, x, es[0]);
      } else {
        OtherKeeps(c, plan, temps, x, es[0]);
      }
      RaceKeeps(c, plan, temps, Step(c, x, es[0]), es[1..]);
    }
  }

  /** A new store over a tree, with threads that are about to call it. */
  ghost predicate Initial(plan: Plan, x: Race) {
    && L.Initial(x.locks) && Rooted(plan.before)
    && x.nodes == plan.before && x.index == map[] && x.claimed == {} && x.jobs == map[]
  }

  lemma InitialInv(c: Config, plan: Plan, temps: set<Loc>, x: Race)
    requires Initial(plan, x)
    ensures Inv(c, plan, temps, x)
  {
    hide Locate, AbsPath, Rooted, L.Inv;
    L.InitialInv(x.locks);
  }

  /** What a fetch meets at this moment. */
  function Files(x: Race): State {
    State(x.nodes, x.index, x.locks.names, {}, map[])
  }

  /** At every moment of every interleaving of pushes and adds whose names do not overlap, with a longer file at
      no target, each indexed digest leads to a file with exactly that content, and so what exists is what can be
      fetched, with the digest asked for: also while other files are half written. */
  lemma RaceIndexed(c: Config, plan: Plan, temps: set<Loc>, x: Race, es: seq<Turn>, i: Item)
    requires PlanOk(c, plan, temps) && Initial(plan, x) && RacePlanned(c, plan, temps, x, es)
    ensures
      var s := Files(Run(c, x, es));
      && (i.digest in s.index ==>
            var at := At(c, s.index[i.digest]);
            at in s.nodes && s.nodes[at].File? && c.sha(s.nodes[at].data) == i.digest)
      && (Fetch(c, s, i).Ok? <==> Exists(s, i))
      && (Fetch(c, s, i).Ok? ==> !Fetch(c, s, i).value.fails && c.sha(Fetch(c, s, i).value.data) == i.digest)
  {
    hide Locate, AbsPath, Run, PlanOk, Initial, Rooted, Jobs, Claimed, OpenApart, L.Inv, AllFree;
    InitialInv(c, plan, temps, x);
    RaceKeeps(c, plan, temps, x, es);
    var x' := Run(c, x, es);
    assert i.digest in x'.index ==> Backed(c, plan, View(x'), i.digest);
  }
}
