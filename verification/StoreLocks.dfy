/** Concurrent calls on one file store: the lock of each name, the graph's mutex, and what any interleaving
    of pushes, adds and fetches keeps. What the calls do to files is only recorded, in a journal. */
module StoreLocks {
  import opened GoStrings

  type Thread = nat

  /** A `sync.RWMutex`. A writer first becomes the owner, which stops new readers, and then waits until the
      readers have left. */
  datatype Lock = Lock(owner: Option<Thread>, readers: set<Thread>)

  /** What a pushing or adding call goes on with once it has given up a name's lock. */
  datatype Next = Added | Pushed | Restored(top: string, rest: seq<string>)

  /** Why a call looks a name up. */
  datatype Purpose = ForFetch | ForSuccessors | ForRestore(top: string, rest: seq<string>) | ForGraph

  /** Where a thread is. A thread in `Announce`, `Drain`, `ReadWait` or `MutexWait` is waiting. */
  datatype Pc =
    | Idle
    | Announce(name: string, attempt: nat, next: Next)
    | Drain(name: string, attempt: nat, next: Next)
    | Check(name: string, attempt: nat, next: Next)
    | Body(name: string, attempt: nat, next: Next)
    | Unlock(name: string, ok: bool, next: Next)
    | ReadWait(name: string, purpose: Purpose)
    | Read(name: string, purpose: Purpose)
    | ReadUnlock(name: string, found: bool, purpose: Purpose)
    | Loop(top: string, items: seq<string>)
    | MutexWait(top: string)
    | MutexHeld(top: string)
    | MutexUnlock

  datatype Call = PushCall(name: string) | AddCall(name: string) | FetchCall(name: string)

  /** What happened to one attempt to make a name exist: it found the name taken, wrote to files or indexes,
      or made the name exist. */
  datatype Entry = Rejected(attempt: nat, name: string) | Wrote(attempt: nat, name: string)
                 | Succeeded(attempt: nat, name: string)

  datatype World = World(
    threads: map<Thread, Pc>,
    locks: map<string, Lock>,
    mutex: Option<Thread>,
    names: set<string>,
    journal: seq<Entry>,
    clock: nat)

  /** How an open choice falls: the call stops with an error, goes on, or takes the other way. */
  datatype Fate = Stop | Go | Other

  datatype Choice = Choice(call: Call, fate: Fate, items: seq<string>)

  /** What a step does besides moving its thread. */
  datatype Act = Nothing | Claim(name: string) | Release(name: string) | Enter(name: string) | Leave(name: string)
               | TakeMutex | GiveMutex | Note(entry: Entry)

  datatype Move = Move(pc: Pc, act: Act)

  function LockOf(w: World, name: string): Lock {
    if name in w.locks then w.locks[name] else Lock(None, {})
  }

  // ---- Steps ----

  function Start(clock: nat, ch: Choice): Pc {
    match ch.call
    case PushCall(name) =>
      if name != "" then Announce(name, clock, Pushed)
      else if ch.fate.Stop? then Idle
      else AfterPush("", ch)
    case AddCall(name) => if name != "" then Announce(name, clock, Added) else Idle
    case FetchCall(name) => if name != "" then ReadWait(name, ForFetch) else Idle
  }

  /** After a successful push: straight to the graph, or first the successors, for which a named manifest
      is fetched. */
  function AfterPush(top: string, ch: Choice): Pc {
    match ch.fate
    case Go => MutexWait(top)
    case _ => if top == "" then Loop(top, ch.items) else ReadWait(top, ForSuccessors)
  }

  function AfterUnlock(name: string, ok: bool, next: Next, ch: Choice): Pc {
    if !ok then Idle
    else
      match next
      case Added => Idle
      case Pushed => AfterPush(name, ch)
      case Restored(top, rest) => Loop(top, rest)
  }

  function AfterRead(clock: nat, name: string, found: bool, p: Purpose, ch: Choice): Pc {
    match p
    case ForFetch => Idle
    case ForSuccessors => if found && !ch.fate.Stop? then Loop(name, ch.items) else Idle
    case ForGraph => MutexUnlock
    case ForRestore(top, rest) =>
      if found || ch.fate.Other? then Loop(top, rest)
      else if ch.fate.Stop? then Idle
      else Announce(name, clock, Restored(top, rest))
  }

  function InLoop(top: string, items: seq<string>): Pc {
    if items == [] then MutexWait(top)
    else if items[0] == "" then Loop(top, items[1..])
    else ReadWait(items[0], ForRestore(top, items[1..]))
  }

  function InBody(name: string, attempt: nat, next: Next, ch: Choice): Move {
    match ch.fate
    case Other => Move(Body(name, attempt, next), Note(Wrote(attempt, name)))
    case Stop => Move(Unlock(name, false, next), Nothing)
    case Go => Move(Unlock(name, true, next), Note(Succeeded(attempt, name)))
  }

  /** A thread at the given place, unless it has to wait. */
  function Decide(w: World, pc: Pc, ch: Choice): Option<Move> {
    match pc
    case Idle => Some(Move(Start(w.clock, ch), Nothing))
    case Announce(n, a, next) => if LockOf(w, n).owner.Some? then None else Some(Move(Drain(n, a, next), Claim(n)))
    case Drain(n, a, next) => if LockOf(w, n).readers != {} then None else Some(Move(Check(n, a, next), Nothing))
    case Check(n, a, next) =>
      if n in w.names then Some(Move(Unlock(n, false, next), Note(Rejected(a, n))))
      else Some(Move(Body(n, a, next), Nothing))
    case Body(n, a, next) => Some(InBody(n, a, next, ch))
    case Unlock(n, ok, next) => Some(Move(AfterUnlock(n, ok, next, ch), Release(n)))
    case ReadWait(n, p) => if LockOf(w, n).owner.Some? then None else Some(Move(Read(n, p), Enter(n)))
    case Read(n, p) => Some(Move(ReadUnlock(n, n in w.names, p), Nothing))
    case ReadUnlock(n, e, p) => Some(Move(AfterRead(w.clock, n, e, p, ch), Leave(n)))
    case Loop(top, items) => Some(Move(InLoop(top, items), Nothing))
    case MutexWait(top) => if w.mutex.Some? then None else Some(Move(MutexHeld(top), TakeMutex))
    case MutexHeld(top) =>
      Some(Move(if top != "" && ch.fate.Go? then ReadWait(top, ForGraph) else MutexUnlock, Nothing))
    case MutexUnlock => Some(Move(Idle, GiveMutex))
  }

  function Handle(l: Lock, t: Thread, act: Act): Lock {
    match act
    case Claim(_) => l.(owner := Some(t))
    case Release(_) => l.(owner := None)
    case Enter(_) => l.(readers := l.readers + {t})
    case Leave(_) => l.(readers := l.readers - {t})
    case _ => l
  }

  function Locks(w: World, t: Thread, act: Act): map<string, Lock> {
    match act
    case Claim(n) => w.locks[n := Handle(LockOf(w, n), t, act)]
    case Release(n) => w.locks[n := Handle(LockOf(w, n), t, act)]
    case Enter(n) => w.locks[n := Handle(LockOf(w, n), t, act)]
    case Leave(n) => w.locks[n := Handle(LockOf(w, n), t, act)]
    case _ => w.locks
  }

  function Do(w: World, t: Thread, m: Move): World {
    World(
      w.threads[t := m.pc],
      Locks(w, t, m.act),
      if m.act.TakeMutex? then Some(t) else if m.act.GiveMutex? then None else w.mutex,
      if m.act.Note? && m.act.entry.Succeeded? then w.names + {m.act.entry.name} else w.names,
      if m.act.Note? then w.journal + [m.act.entry] else w.journal,
      w.clock + 1)
  }

  datatype Event = Event(thread: Thread, choice: Choice)

  function Step(w: World, e: Event): World {
    if e.thread !in w.threads then w
    else
      match Decide(w, w.threads[e.thread], e.choice)
      case None => w
      case Some(m) => Do(w, e.thread, m)
  }

  function Run(w: World, es: seq<Event>): World
    decreases |es|
  {
    if es == [] then w else Run(Step(w, es[0]), es[1..])
  }

  predicate Initial(w: World) {
    && (forall t | t in w.threads :: w.threads[t] == Idle)
    && w.locks == map[] && w.mutex == None && w.names == {} && w.journal == []
  }

  // ---- Who holds what ----

  predicate Owns(pc: Pc, name: string) {
    (pc.Drain? || pc.Check? || pc.Body? || pc.Unlock?) && pc.name == name
  }

  /** The lock is held for writing, and not only claimed. */
  predicate Writes(pc: Pc, name: string) {
    Owns(pc, name) && !pc.Drain?
  }

  predicate Reads(pc: Pc, name: string) {
    (pc.Read? || pc.ReadUnlock?) && pc.name == name
  }

  predicate HoldsMutex(pc: Pc) {
    pc.MutexHeld? || pc.MutexUnlock? || ((pc.ReadWait? || pc.Read? || pc.ReadUnlock?) && pc.purpose.ForGraph?)
  }

  /** What a step does to a lock follows its thread's place. */
  predicate Fits(l: Lock, before: Pc, m: Move, name: string) {
    && Owns(m.pc, name) == (m.act == Claim(name) || (Owns(before, name) && m.act != Release(name)))
    && Reads(m.pc, name) == (m.act == Enter(name) || (Reads(before, name) && m.act != Leave(name)))
    && (m.act == Claim(name) || m.act == Enter(name) ==> l.owner.None?)
    && (m.act == Claim(name) ==> !Writes(m.pc, name))
    && (m.act == Release(name) ==> Owns(before, name))
    && (m.act == Leave(name) ==> Reads(before, name))
    && (Writes(m.pc, name) && !Writes(before, name) ==> l.readers == {})
  }

  lemma DecideFits(w: World, pc: Pc, ch: Choice, name: string)
    requires Decide(w, pc, ch).Some?
    ensures Fits(LockOf(w, name), pc, Decide(w, pc, ch).value, name)
  {
  }

  lemma DecideMutex(w: World, pc: Pc, ch: Choice)
    requires Decide(w, pc, ch).Some?
    ensures
      var m := Decide(w, pc, ch).value;
      && HoldsMutex(m.pc) == (if m.act.TakeMutex? then true else if m.act.GiveMutex? then false else HoldsMutex(pc))
      && (m.act.TakeMutex? ==> w.mutex.None?) && (m.act.GiveMutex? ==> HoldsMutex(pc))
  {
  }

  /** The lock of a name says who holds it, and a writer excludes readers. */
  ghost predicate LockTrue(w: World, name: string) {
    var l := LockOf(w, name);
    && (forall t | t in w.threads :: l.owner == Some(t) <==> Owns(w.threads[t], name))
    && (forall t | t in w.threads :: t in l.readers <==> Reads(w.threads[t], name))
    && (forall t | t in w.threads && Writes(w.threads[t], name) :: l.readers == {})
    && (l.owner.Some? ==> l.owner.value in w.threads)
    && l.readers <= w.threads.Keys
  }

  ghost predicate MutexTrue(w: World) {
    && (forall t | t in w.threads :: w.mutex == Some(t) <==> HoldsMutex(w.threads[t]))
    && (w.mutex.Some? ==> w.mutex.value in w.threads)
  }

  lemma DoLock(w: World, t: Thread, m: Move, name: string)
    requires t in w.threads && LockTrue(w, name) && Fits(LockOf(w, name), w.threads[t], m, name)
    ensures LockTrue(Do(w, t, m), name)
  {
    hide Owns, Reads;
    LockAfter(w, t, m, name);
  }

  lemma LockAfter(w: World, t: Thread, m: Move, name: string)
    ensures LockOf(Do(w, t, m), name)
         == if m.act in {Claim(name), Release(name), Enter(name), Leave(name)} then Handle(LockOf(w, name), t, m.act)
            else LockOf(w, name)
  {
  }

  lemma DoMutex(w: World, t: Thread, ch: Choice)
    requires t in w.threads && MutexTrue(w) && Decide(w, w.threads[t], ch).Some?
    ensures MutexTrue(Do(w, t, Decide(w, w.threads[t], ch).value))
  {
    hide Decide, HoldsMutex;
    DecideMutex(w, w.threads[t], ch);
  }

  // ---- What happened ----

  predicate Trying(pc: Pc) {
    pc.Announce? || pc.Drain? || pc.Check? || pc.Body?
  }

  /** Attempts are numbered by the clock, so no two are the same. */
  ghost predicate Numbered(w: World) {
    && (forall t | t in w.threads && Trying(w.threads[t]) :: w.threads[t].attempt < w.clock)
    && (forall t, u | t in w.threads && u in w.threads && t != u && Trying(w.threads[t]) && Trying(w.threads[u]) ::
          w.threads[t].attempt != w.threads[u].attempt)
    && (forall k | 0 <= k < |w.journal| :: w.journal[k].attempt < w.clock)
  }

  /** What the journal says of an attempt under way: nothing before its check, and no end before its end. */
  ghost predicate Open(journal: seq<Entry>, pc: Pc) {
    Trying(pc) ==> forall k | 0 <= k < |journal| && journal[k].attempt == pc.attempt :: pc.Body? && journal[k].Wrote?
  }

  /** An attempt that was rejected wrote nothing, and did not succeed either. */
  ghost predicate RejectedIdle(journal: seq<Entry>) {
    forall i, j | 0 <= i < |journal| && 0 <= j < |journal| && journal[i].attempt == journal[j].attempt ::
      journal[i].Rejected? ==> journal[j].Rejected?
  }

  /** At most one attempt per name succeeded. */
  ghost predicate OneSuccess(journal: seq<Entry>) {
    forall i, j | 0 <= i < |journal| && 0 <= j < |journal| && journal[i].Succeeded? && journal[j].Succeeded? ::
      journal[i].name == journal[j].name ==> i == j
  }

  ghost predicate NamesTrue(w: World) {
    forall n :: n in w.names <==> exists k :: 0 <= k < |w.journal| && w.journal[k].Succeeded? && w.journal[k].name == n
  }

  ghost predicate Told(w: World) {
    && Numbered(w) && RejectedIdle(w.journal) && OneSuccess(w.journal) && NamesTrue(w)
    && (forall t | t in w.threads :: Open(w.journal, w.threads[t]))
    && (forall t | t in w.threads && w.threads[t].Body? :: w.threads[t].name !in w.names)
  }

  /** Where a step's attempt and entry come from. */
  predicate Follows(w: World, pc: Pc, m: Move) {
    && (Trying(m.pc) && m.pc.attempt != w.clock ==> Trying(pc) && m.pc.attempt == pc.attempt && m.pc.name == pc.name)
    && (Trying(m.pc) && !m.pc.Announce? ==> Trying(pc) && m.pc.attempt == pc.attempt && m.pc.name == pc.name)
    && (Trying(m.pc) && m.pc.Announce? ==> !m.act.Note? && m.pc.attempt == w.clock)
    && (m.pc.Body? && !pc.Body? ==> m.pc.name !in w.names)
    && (pc.Body? && Trying(m.pc) ==> m.pc.Body?)
    && (m.act.Note? ==>
          && Trying(pc) && m.act.entry.attempt == pc.attempt && m.act.entry.name == pc.name
          && match m.act.entry
             case Rejected(_, _) => pc.Check? && !Trying(m.pc)
             case Wrote(_, _) => pc.Body? && m.pc == pc
             case Succeeded(_, _) => pc.Body? && !Trying(m.pc))
  }

  lemma DecideFollows(w: World, pc: Pc, ch: Choice)
    requires Decide(w, pc, ch).Some?
    ensures Follows(w, pc, Decide(w, pc, ch).value)
  {
  }

  /** The new entry of a step, if any, ends or extends the one attempt of its thread. */
  lemma NoteKeeps(w: World, t: Thread, m: Move)
    requires t in w.threads && Told(w) && Follows(w, w.threads[t], m)
    ensures
      var w' := Do(w, t, m);
      RejectedIdle(w'.journal) && OneSuccess(w'.journal) && NamesTrue(w')
  {
    hide Trying, Numbered, Locks;
    var w' := Do(w, t, m);
    var pc := w.threads[t];
    assert Open(w.journal, pc);
    if m.act.Note? {
      var n := |w.journal|;
      assert forall k | 0 <= k < n :: w'.journal[k] == w.journal[k];
      assert w'.journal[n] == m.act.entry;
      forall name
        ensures name in w'.names
           <==> exists k :: 0 <= k < |w'.journal| && w'.journal[k].Succeeded? && w'.journal[k].name == name
      {
        if name in w.names {
          var k :| 0 <= k < n && w.journal[k].Succeeded? && w.journal[k].name == name;
          assert w'.journal[k].Succeeded? && w'.journal[k].name == name;
        }
      }
    }
  }

  lemma NumbersKeep(w: World, t: Thread, m: Move)
    requires t in w.threads && Numbered(w) && Follows(w, w.threads[t], m)
    ensures Numbered(Do(w, t, m))
  {
    hide Locks;
  }

  lemma OpenKeeps(w: World, t: Thread, m: Move, u: Thread)
    requires t in w.threads && Numbered(w) && Follows(w, w.threads[t], m) && u in w.threads
    requires Open(w.journal, w.threads[t]) && Open(w.journal, w.threads[u])
    ensures Open(Do(w, t, m).journal, Do(w, t, m).threads[u])
  {
    hide Locks;
  }

  lemma OneOwner(w: World, t: Thread, u: Thread, name: string)
    requires LockTrue(w, name) && t in w.threads && u in w.threads
    requires Owns(w.threads[t], name) && Owns(w.threads[u], name)
    ensures t == u
  {
  }

  lemma BodiesKeep(w: World, t: Thread, m: Move, u: Thread)
    requires t in w.threads && Told(w) && Follows(w, w.threads[t], m)
    requires forall name :: LockTrue(w, name)
    requires u in w.threads && Do(w, t, m).threads[u].Body?
    ensures Do(w, t, m).threads[u].name !in Do(w, t, m).names
  {
    hide Locks, LockTrue, Numbered, RejectedIdle, OneSuccess, NamesTrue, Open;
    if u != t && m.act.Note? && m.act.entry.Succeeded? && m.act.entry.name == w.threads[u].name {
      OneOwner(w, t, u, w.threads[u].name);
    }
  }

  ghost predicate Inv(w: World) {
    Told(w) && MutexTrue(w) && forall name :: LockTrue(w, name)
  }

  lemma StepKeeps(w: World, e: Event)
    requires Inv(w)
    ensures Inv(Step(w, e)) && w.names <= Step(w, e).names && w.journal <= Step(w, e).journal
  {
    hide Decide, LockTrue, MutexTrue, Follows, Fits, Numbered, RejectedIdle, OneSuccess, NamesTrue, Open, Locks;
    if e.thread in w.threads && Decide(w, w.threads[e.thread], e.choice).Some? {
      var t, m := e.thread, Decide(w, w.threads[e.thread], e.choice).value;
      DecideFollows(w, w.threads[t], e.choice);
      DoMutex(w, t, e.choice);
      forall name ensures LockTrue(Do(w, t, m), name) {
        DecideFits(w, w.threads[t], e.choice, name);
        DoLock(w, t, m, name);
      }
      NoteKeeps(w, t, m);
      NumbersKeep(w, t, m);
      forall u | u in w.threads ensures Open(Do(w, t, m).journal, Do(w, t, m).threads[u]) {
        OpenKeeps(w, t, m, u);
      }
      forall u | u in w.threads && Do(w, t, m).threads[u].Body?
        ensures Do(w, t, m).threads[u].name !in Do(w, t, m).names
      {
        BodiesKeep(w, t, m, u);
      }
    }
  }

  lemma {:induction false} RunKeeps(w: World, es: seq<Event>)
    requires Inv(w)
    ensures Inv(Run(w, es)) && w.names <= Run(w, es).names && w.journal <= Run(w, es).journal
    decreases |es|
  {
    hide Inv, Step;
    if es != [] {
      StepKeeps(w, es[0]);
      RunKeeps(Step(w, es[0]), es[1..]);
    }
  }

  lemma InitialInv(w: World)
    requires Initial(w)
    ensures Inv(w)
  {
  }

  /** Under every interleaving at most one attempt per name succeeds, which is what makes the name exist, and
      attempts that find the name taken write nothing. */
  lemma InterleavingsSafe(w: World, es: seq<Event>)
    requires Initial(w)
    ensures
      var w' := Run(w, es);
      OneSuccess(w'.journal) && RejectedIdle(w'.journal) && NamesTrue(w')
  {
    hide Run, Initial, OneSuccess, RejectedIdle, NamesTrue, Numbered, Open, MutexTrue, LockTrue;
    InitialInv(w);
    RunKeeps(w, es);
  }

  /** While one call is at work on a name, no other call checks, writes or reads the name's state. */
  lemma MutualExclusion(w: World, es: seq<Event>, t: Thread, u: Thread, name: string)
    requires Initial(w)
    requires
      var w' := Run(w, es);
      t in w'.threads && u in w'.threads && t != u && Writes(w'.threads[t], name)
    ensures
      var pc := Run(w, es).threads[u];
      !Writes(pc, name) && !Reads(pc, name)
  {
    hide Run, Initial, Told, MutexTrue, Reads;
    InitialInv(w);
    RunKeeps(w, es);
    assert LockTrue(Run(w, es), name);
  }

  /** A name that exists exists ever after, and what the journal says stays. */
  lemma NamesStay(w: World, es: seq<Event>, more: seq<Event>)
    requires Initial(w)
    ensures Run(w, es).names <= Run(Run(w, es), more).names
    ensures Run(w, es).journal <= Run(Run(w, es), more).journal
  {
    hide Run, Inv, Initial;
    InitialInv(w);
    RunKeeps(w, es);
    RunKeeps(Run(w, es), more);
  }

  // ---- Waiting ----

  predicate Waiting(pc: Pc) {
    pc.Announce? || pc.Drain? || pc.ReadWait? || pc.MutexWait?
  }

  /** One thread waits for what another holds. */
  predicate WaitsFor(w: World, t: Thread, u: Thread)
    requires t in w.threads
  {
    match w.threads[t]
    case Announce(n, _, _) => LockOf(w, n).owner == Some(u)
    case Drain(n, _, _) => u in LockOf(w, n).readers
    case ReadWait(n, _) => LockOf(w, n).owner == Some(u)
    case MutexWait(_) => w.mutex == Some(u)
    case _ => false
  }

  /** Waiting for the mutex, for a name's owner, for readers to leave, or not at all. */
  function Rank(pc: Pc): nat {
    if pc.MutexWait? then 3 else if pc.Announce? || pc.ReadWait? then 2 else if pc.Drain? then 1 else 0
  }

  /** What is waited for ranks lower: the mutex's holder waits at most for a name, a name's owner at most for
      readers, and a reader for nothing. */
  lemma WaitsForLower(w: World, t: Thread, u: Thread)
    requires Inv(w) && t in w.threads && WaitsFor(w, t, u)
    ensures u in w.threads && Rank(w.threads[u]) < Rank(w.threads[t])
    ensures w.threads[u] != Idle
  {
    hide Told;
    if w.threads[t].MutexWait? {
    } else {
      assert LockTrue(w, w.threads[t].name);
    }
  }

  ghost predicate Chain(w: World, ts: seq<Thread>) {
    && (forall i | 0 <= i < |ts| :: ts[i] in w.threads)
    && (forall i, j | 0 <= i < j < |ts| && j == i + 1 :: WaitsFor(w, ts[i], ts[j]))
  }

  lemma {:induction false} ChainFalls(w: World, ts: seq<Thread>)
    requires Inv(w) && Chain(w, ts) && |ts| > 1
    ensures Rank(w.threads[ts[|ts| - 1]]) + |ts| - 1 <= Rank(w.threads[ts[0]])
    decreases |ts|
  {
    hide Inv, Rank, WaitsFor;
    var n := |ts|;
    WaitsForLower(w, ts[n - 2], ts[n - 1]);
    if n > 2 {
      ChainFalls(w, ts[..n - 1]);
    }
  }

  /** No interleaving reaches a wait cycle; at most three waits are chained. */
  lemma NoWaitCycle(w: World, es: seq<Event>, ts: seq<Thread>)
    requires Initial(w) && Chain(Run(w, es), ts) && |ts| > 1
    ensures ts[0] != ts[|ts| - 1] && |ts| <= 4
  {
    hide Run, Inv, Chain, Initial;
    InitialInv(w);
    RunKeeps(w, es);
    ChainMembers(Run(w, es), ts);
    ChainFalls(Run(w, es), ts);
  }

  lemma ChainMembers(w: World, ts: seq<Thread>)
    requires Chain(w, ts)
    ensures forall i | 0 <= i < |ts| :: ts[i] in w.threads
  {
  }

  /** A thread that waits waits for some thread, and one that does not can move. */
  lemma BlockedWaits(w: World, t: Thread, ch: Choice) returns (u: Thread)
    requires t in w.threads && Decide(w, w.threads[t], ch).None?
    ensures WaitsFor(w, t, u)
  {
    match w.threads[t]
    case Announce(n, _, _) => u := LockOf(w, n).owner.value;
    case Drain(n, _, _) => u :| u in LockOf(w, n).readers;
    case ReadWait(n, _) => u := LockOf(w, n).owner.value;
    case MutexWait(_) => u := w.mutex.value;
  }

  lemma {:induction false} SomeoneMoves(w: World, t: Thread) returns (u: Thread)
    requires Inv(w) && t in w.threads && w.threads[t] != Idle
    ensures u in w.threads && w.threads[u] != Idle && forall ch :: Decide(w, w.threads[u], ch).Some?
    decreases Rank(w.threads[t])
  {
    hide Inv, Decide, WaitsFor, Rank;
    if forall ch :: Decide(w, w.threads[t], ch).Some? {
      return t;
    }
    var ch :| Decide(w, w.threads[t], ch).None?;
    u := BlockedWaits(w, t, ch);
    WaitsForLower(w, t, u);
    u := SomeoneMoves(w, u);
  }

  /** While any call is under way some call can take a step, whatever the interleaving so far. */
  lemma NoDeadlock(w: World, es: seq<Event>, t: Thread) returns (u: Thread)
    requires Initial(w)
    requires var w' := Run(w, es); t in w'.threads && w'.threads[t] != Idle
    ensures
      var w' := Run(w, es);
      u in w'.threads && w'.threads[u] != Idle && forall ch :: Decide(w', w'.threads[u], ch).Some?
  {
    hide Run, Inv, Initial, Decide;
    InitialInv(w);
    RunKeeps(w, es);
    u := SomeoneMoves(Run(w, es), t);
  }

  /** Whoever holds a name's lock is not waiting for any lock; whoever holds the mutex waits, if at all, to
      read a name. */
  lemma HoldersWait(w: World, es: seq<Event>, t: Thread, name: string)
    requires Initial(w) && t in Run(w, es).threads
    ensures
      var w' := Run(w, es);
      var pc := w'.threads[t];
      && (LockOf(w', name).owner == Some(t) ==> !Waiting(pc) || pc.Drain?)
      && (t in LockOf(w', name).readers ==> !Waiting(pc))
      && (w'.mutex == Some(t) ==> !Waiting(pc) || pc.ReadWait?)
  {
    hide Run, Initial, Told;
    InitialInv(w);
    RunKeeps(w, es);
    assert LockTrue(Run(w, es), name);
  }
}
