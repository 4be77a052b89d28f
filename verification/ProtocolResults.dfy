/** What clients of the unpack protocol can rely on: keys are given up, success means presence, and every
    creation is reported by its creator alone. */
module ProtocolResults {
  import opened GoStrings
  import opened ChainIds
  import opened Snapshots
  import opened Protocol
  import opened ProtocolSafety

  // ---- Keys ----

  ghost function AllHeld(w: World): set<Key> {
    set id, k | id in w.clients && k in Held(w.clients[id]) :: k
  }

  /** The active keys are the foreign ones, those being worked on, and those whose removal failed. */
  ghost predicate KeysConserved(foreign: set<Key>, w: World) {
    && w.sn.active.Keys == foreign + AllHeld(w) + w.leaked
    && foreign !! AllHeld(w) && foreign !! w.leaked && AllHeld(w) !! w.leaked
  }

  lemma AllHeldStep(w: World, id: Id, c': Client)
    requires id in w.clients && KeysApart(w)
    ensures
      var w' := w.(clients := w.clients[id := c']);
      AllHeld(w') == (AllHeld(w) - Held(w.clients[id])) + Held(c')
  {
    hide Held;
    var w' := w.(clients := w.clients[id := c']);
    forall k | k in AllHeld(w') ensures k in (AllHeld(w) - Held(w.clients[id])) + Held(c') {
      var i :| i in w'.clients && k in Held(w'.clients[i]);
      assert i != id ==> Held(w.clients[i]) !! Held(w.clients[id]);
    }
    forall k | k in (AllHeld(w) - Held(w.clients[id])) + Held(c') ensures k in AllHeld(w') {
      if k in Held(c') {
        assert k in Held(w'.clients[id]);
      } else {
        var i :| i in w.clients && k in Held(w.clients[i]);
        assert w'.clients[i] == w.clients[i];
      }
    }
  }

  lemma StepConservesKeys(h: Hash, layers: iset<Digest>, w: World, e: Event, foreign: set<Key>)
    requires CollisionFree(h, layers) && Inv(h, layers, w) && KeysConserved(foreign, w)
    ensures KeysConserved(foreign, Step(h, w, e))
  {
    hide ClientOk, PrefixClosed, Advance, Held, CollisionFree, ReportOk;
    if e.Act? && e.id in w.clients {
      var c := w.clients[e.id];
      var m := Advance(h, w.sn, c, e.choice);
      AdvanceKeeps(h, layers, w.sn, c, e.choice);
      AllHeldStep(w, e.id, m.client);
      assert Held(c) <= AllHeld(w);
      assert AllHeld(Step(h, w, e)) == AllHeld(w.(clients := w.clients[e.id := m.client]));
    } else if e.Reaped? {
      ReapKeeps(h, layers, w.sn, e.name);
      assert AllHeld(Step(h, w, e)) == AllHeld(w);
    }
  }

  lemma {:induction false} RunConserves(h: Hash, layers: iset<Digest>, w: World, events: seq<Event>, foreign: set<Key>)
    requires CollisionFree(h, layers) && Inv(h, layers, w) && KeysConserved(foreign, w)
    ensures KeysConserved(foreign, Run(h, w, events))
    decreases |events|
  {
    hide CollisionFree, Inv, Step, KeysConserved;
    if events != [] {
      RunConserves(h, layers, w, Front(events), foreign);
      RunKeeps(h, layers, w, Front(events));
      StepConservesKeys(h, layers, Run(h, w, Front(events)), Last(events), foreign);
    }
  }

  /** Once every client is done, the active keys are those that were there before, and those that could not
      be removed. */
  lemma RunConservesKeys(h: Hash, layers: iset<Digest>, w: World, events: seq<Event>)
    requires CollisionFree(h, layers) && Initial(h, layers, w)
    ensures KeysConserved(w.sn.active.Keys, Run(h, w, events))
    ensures
      var w' := Run(h, w, events);
      (forall id | id in w'.clients :: w'.clients[id].phase.Finished?)
      ==> w'.sn.active.Keys == w.sn.active.Keys + w'.leaked
  {
    InitialInv(h, layers, w);
    assert AllHeld(w) == {};
    RunConserves(h, layers, w, events, w.sn.active.Keys);
  }

  // ---- Reports ----

  /** How often a call of a client created a snapshot. */
  function Count(log: seq<Creation>, id: Id, call: nat): nat {
    if log == [] then 0
    else Count(Front(log), id, call) + if Last(log).id == id && Last(log).call == call then 1 else 0
  }

  /** The log of a Loop client agrees with its answers. */
  ghost predicate Logged(h: Hash, log: seq<Creation>, id: Id, c: Client) {
    c.mode == Loop ==>
      && (forall call: nat :: Count(log, id, call) == if call < |c.reports| && c.reports[call] then 1 else 0)
      && (forall i | 0 <= i < |log| && log[i].id == id ::
            log[i].call < |c.reports| <= |c.layers| && log[i].name == ChainID(h, c.layers[..log[i].call + 1]))
  }

  ghost predicate AllLogged(h: Hash, w: World) {
    forall id | id in w.clients :: Logged(h, w.log, id, w.clients[id])
  }

  lemma CountStep(log: seq<Creation>, x: Creation, id: Id, call: nat)
    ensures Count(log + [x], id, call) == Count(log, id, call) + if x.id == id && x.call == call then 1 else 0
  {
    assert Front(log + [x]) == log;
  }

  lemma LoggedMore(h: Hash, log: seq<Creation>, id: Id, c: Client, x: Creation)
    requires Logged(h, log, id, c) && x.id != id
    ensures Logged(h, log + [x], id, c)
  {
    forall call: nat { CountStep(log, x, id, call); }
  }

  lemma LoggedOwn(h: Hash, layers: iset<Digest>, log: seq<Creation>, id: Id, sn: State, c: Client, m: Move)
    requires Logged(h, log, id, c) && ReportOk(h, c, m) && ClientOk(h, layers, m.sn, m.client)
    ensures Logged(h, if m.created then log + [Creation(Name(h, c), id, |c.reports|)] else log, id, m.client)
  {
    hide ChainID, Name, Count, PhaseOk, Over;
    if m.created {
      forall call: nat { CountStep(log, Creation(Name(h, c), id, |c.reports|), id, call); }
    }
  }

  lemma StepLogs(h: Hash, layers: iset<Digest>, w: World, e: Event)
    requires CollisionFree(h, layers) && Inv(h, layers, w) && AllLogged(h, w)
    ensures AllLogged(h, Step(h, w, e))
  {
    hide ClientOk, PrefixClosed, Advance, CollisionFree, ReportOk, MoveOk, Logged, Name;
    if e.Act? && e.id in w.clients {
      var c := w.clients[e.id];
      var m := Advance(h, w.sn, c, e.choice);
      AdvanceKeeps(h, layers, w.sn, c, e.choice);
      LoggedOwn(h, layers, w.log, e.id, w.sn, c, m);
      var x := Creation(Name(h, c), e.id, |c.reports|);
      forall i | i in w.clients && i != e.id ensures Logged(h, w.log + [x], i, w.clients[i]) {
        LoggedMore(h, w.log, i, w.clients[i], x);
      }
    }
  }

  lemma {:induction false} RunLogs(h: Hash, layers: iset<Digest>, w: World, events: seq<Event>)
    requires CollisionFree(h, layers) && Inv(h, layers, w) && AllLogged(h, w)
    ensures AllLogged(h, Run(h, w, events))
    decreases |events|
  {
    hide CollisionFree, Inv, Step, AllLogged;
    if events != [] {
      RunLogs(h, layers, w, Front(events));
      RunKeeps(h, layers, w, Front(events));
      StepLogs(h, layers, Run(h, w, Front(events)), Last(events));
    }
  }

  /** Every call of an unpack loop that answers true created the snapshot of its chain, exactly once; every
      call that answers false created none; and every creation by a loop client is answered by its own call. */
  lemma RunReportsCreations(h: Hash, layers: iset<Digest>, w: World, events: seq<Event>, id: Id)
    requires CollisionFree(h, layers) && Initial(h, layers, w)
    requires id in Run(h, w, events).clients && Run(h, w, events).clients[id].mode == Loop
    ensures
      var w' := Run(h, w, events);
      var c := w'.clients[id];
      && (forall call: nat | call < |c.reports| :: Count(w'.log, id, call) == if c.reports[call] then 1 else 0)
      && (forall i | 0 <= i < |w'.log| && w'.log[i].id == id ::
            && w'.log[i].call < |c.reports| && c.reports[w'.log[i].call]
            && w'.log[i].call < |c.layers|
            && w'.log[i].name == ChainID(h, c.layers[..w'.log[i].call + 1]))
  {
    hide Initial, CollisionFree, Run, Count, ChainID, Inv;
    InitialInv(h, layers, w);
    InitialLogged(h, layers, w);
    RunLogs(h, layers, w, events);
    var w' := Run(h, w, events);
    var c := w'.clients[id];
    assert Logged(h, w'.log, id, c);
    forall i | 0 <= i < |w'.log| && w'.log[i].id == id ensures c.reports[w'.log[i].call] {
      Counted(w'.log, i);
    }
  }

  lemma InitialLogged(h: Hash, layers: iset<Digest>, w: World)
    requires Initial(h, layers, w)
    ensures AllLogged(h, w)
  {
  }

  lemma {:induction false} Counted(log: seq<Creation>, i: nat)
    requires i < |log|
    ensures Count(log, log[i].id, log[i].call) >= 1
  {
    if i < |log| - 1 {
      Counted(Front(log), i);
    }
  }

  // ---- Losing a race ----

  /** In every run a call of an unpack loop whose commit lost the race answers false, without error, on the
      very step that removes its key. */
  lemma LoserReports(h: Hash, layers: iset<Digest>, w: World, events: seq<Event>, id: Id, ch: Choice)
    requires CollisionFree(h, layers) && Initial(h, layers, w)
    requires
      var c := Run(h, w, events).clients;
      && id in c && c[id].mode == Loop
      && c[id].phase.Working? && c[id].phase.pc.Cleaning? && c[id].phase.pc.cause == AlreadyExists
    ensures
      var before := Run(h, w, events);
      var c := before.clients[id];
      var w' := Step(h, before, Act(id, ch));
      var c' := w'.clients[id];
      && c'.reports == c.reports + [false]
      && (c'.phase == Asking || c'.phase == Finished(None))
      && Held(c') == {} && w'.log == before.log && w'.sn.committed == before.sn.committed
      && (ch.works ==> c.phase.pc.key !in w'.sn.active)
  {
    hide Run, CollisionFree, PrefixClosed, Initial, ChainID, KeysApart;
    InitialInv(h, layers, w);
    RunKeeps(h, layers, w, events);
    assert ClientOk(h, layers, Run(h, w, events).sn, Run(h, w, events).clients[id]);
  }

  /** Stat never fails with AlreadyExists. */
  predicate StatLawful(w: World, e: Event) {
    e.Act? && e.id in w.clients && w.clients[e.id].phase.Asking? ==> e.choice.fault != Some(AlreadyExists)
  }

  predicate StatLawfulRun(h: Hash, w: World, events: seq<Event>) {
    events == [] || (StatLawfulRun(h, w, Front(events)) && StatLawful(Run(h, w, Front(events)), Last(events)))
  }

  ghost predicate NoneEndsExisting(w: World) {
    forall id | id in w.clients :: w.clients[id].phase != Finished(Some(AlreadyExists))
  }

  lemma AdvanceNeverEndsExisting(h: Hash, sn: State, c: Client, ch: Choice)
    requires c.phase != Finished(Some(AlreadyExists))
    requires c.phase.Asking? ==> ch.fault != Some(AlreadyExists)
    ensures Advance(h, sn, c, ch).client.phase != Finished(Some(AlreadyExists))
  {
    hide ChainID;
  }

  /** AlreadyExists never comes out of either driver, in any run, unless Stat itself failed with it: every race
      that is lost is swallowed. */
  lemma {:induction false} RunNeverEndsExisting(h: Hash, w: World, events: seq<Event>)
    requires NoneEndsExisting(w) && StatLawfulRun(h, w, events)
    ensures NoneEndsExisting(Run(h, w, events))
    decreases |events|
  {
    hide Advance;
    if events != [] {
      RunNeverEndsExisting(h, w, Front(events));
      var before, e := Run(h, w, Front(events)), Last(events);
      if e.Act? && e.id in before.clients {
        AdvanceNeverEndsExisting(h, before.sn, before.clients[e.id], e.choice);
      }
    }
  }

  // ---- Success ----

  /** No snapshot is removed from outside, and AlreadyExists comes from Apply never and from Commit only
      when the name is there. */
  predicate Lawful(w: World, e: Event) {
    && e.Act?
    && (e.id in w.clients && w.clients[e.id].phase.Working?
        && (w.clients[e.id].phase.pc.Applying? || w.clients[e.id].phase.pc.Committing?)
        ==> e.choice.fault != Some(AlreadyExists))
  }

  predicate LawfulRun(h: Hash, w: World, events: seq<Event>) {
    events == [] || (LawfulRun(h, w, Front(events)) && Lawful(Run(h, w, Front(events)), Last(events)))
  }

  /** What a client's answers promise about the committed names. */
  ghost predicate Present(h: Hash, sn: State, c: Client) {
    && (c.mode == Loop ==> forall n | 0 < n <= |c.reports| && n <= |c.layers| :: Have(h, sn, c.layers, n))
    && (c.mode == Batch && c.phase == Finished(None) ==> Have(h, sn, c.layers, |c.layers|))
    && (c.phase.Working? && c.phase.pc.Cleaning? && c.phase.pc.cause == AlreadyExists ==> Name(h, c) in sn.committed)
  }

  ghost predicate Have(h: Hash, sn: State, layers: seq<Digest>, n: nat)
    requires n <= |layers|
  {
    ChainID(h, layers[..n]) in sn.committed
  }

  ghost predicate AllPresent(h: Hash, w: World) {
    forall id | id in w.clients :: Present(h, w.sn, w.clients[id])
  }

  lemma PresentMore(h: Hash, sn: State, sn': State, c: Client)
    requires Present(h, sn, c) && sn.committed.Keys <= sn'.committed.Keys
    ensures Present(h, sn', c)
  {
    forall n | 0 <= n <= |c.layers| && Have(h, sn, c.layers, n) ensures Have(h, sn', c.layers, n) {}
  }

  lemma ConcludePresent(h: Hash, sn: State, c: Client, applied: bool)
    requires Present(h, sn, c) && 1 <= Goal(c) <= |c.layers| && Have(h, sn, c.layers, Goal(c))
    ensures Present(h, sn, Conclude(c, applied))
  {
  }

  lemma ReturnPresent(h: Hash, sn: State, c: Client, stack: seq<Frame>, err: Option<Class>)
    requires Present(h, sn, c) && StackOk(c, stack)
    requires err.None? || err.value == AlreadyExists ==> Have(h, sn, c.layers, Last(stack).len)
    ensures Present(h, sn, Return(c, stack, err))
  {
    if !(err.Some? && err.value != AlreadyExists) {
      if |stack| == 1 {
        assert stack[0].len == Goal(c);
        ConcludePresent(h, sn, c, err.None?);
      }
    }
  }

  lemma AdvancePresent(h: Hash, layers: iset<Digest>, sn: State, c: Client, ch: Choice)
    requires CollisionFree(h, layers) && PrefixClosed(h, layers, sn) && ClientOk(h, layers, sn, c)
    requires Present(h, sn, c)
    requires c.phase.Working? && (c.phase.pc.Applying? || c.phase.pc.Committing?) ==> ch.fault != Some(AlreadyExists)
    ensures Present(h, Advance(h, sn, c, ch).sn, Advance(h, sn, c, ch).client)
  {
    hide PrefixClosed, CollisionFree, ChainID, Snapshots.Holds, Present;
    var m := Advance(h, sn, c, ch);
    AdvanceKeeps(h, layers, sn, c, ch);
    PresentMore(h, sn, m.sn, c);
    PresentCases(h, layers, sn, c, ch);
  }

  lemma PresentCases(h: Hash, layers: iset<Digest>, sn: State, c: Client, ch: Choice)
    requires ClientOk(h, layers, sn, c)
    requires Present(h, Advance(h, sn, c, ch).sn, c)
    requires c.phase.Working? && (c.phase.pc.Applying? || c.phase.pc.Committing?) ==> ch.fault != Some(AlreadyExists)
    ensures Present(h, Advance(h, sn, c, ch).sn, Advance(h, sn, c, ch).client)
  {
    hide ChainID, Snapshots.Holds;
    var m := Advance(h, sn, c, ch);
    match c.phase
    case Finished(_) =>
    case Asking =>
      if m.client == Conclude(c, false) {
        ConcludePresent(h, m.sn, c, false);
      }
    case Working(stack, pc) =>
      var n := Last(stack).len;
      match pc
      case Preparing =>
        var r := Prepare(sn, ch.key, ChainID(h, Front(Chain(c, n))), ch.fault);
        if r.err.Some? && r.err != Some(AlreadyExists) {
          ReturnPresent(h, m.sn, c, stack, r.err);
        }
      case Applying(key) =>
      case Committing(key) =>
        if m.created {
          ReturnPresent(h, m.sn, c, stack, None);
        }
      case Cleaning(key, cause) =>
        ReturnPresent(h, m.sn, c, stack, Some(cause));
  }

  lemma StepPresent(h: Hash, layers: iset<Digest>, w: World, e: Event)
    requires CollisionFree(h, layers) && Inv(h, layers, w) && AllPresent(h, w) && Lawful(w, e)
    ensures AllPresent(h, Step(h, w, e)) && w.sn.committed.Keys <= Step(h, w, e).sn.committed.Keys
  {
    hide ClientOk, PrefixClosed, Advance, CollisionFree, ReportOk, Present, Held, Name;
    if e.id in w.clients {
      var c := w.clients[e.id];
      var m := Advance(h, w.sn, c, e.choice);
      AdvanceKeeps(h, layers, w.sn, c, e.choice);
      AdvancePresent(h, layers, w.sn, c, e.choice);
      forall i | i in w.clients && i != e.id ensures Present(h, m.sn, w.clients[i]) {
        PresentMore(h, w.sn, m.sn, w.clients[i]);
      }
    }
  }

  lemma {:induction false} RunPresent(h: Hash, layers: iset<Digest>, w: World, events: seq<Event>)
    requires CollisionFree(h, layers) && Inv(h, layers, w) && AllPresent(h, w) && LawfulRun(h, w, events)
    ensures AllPresent(h, Run(h, w, events))
    decreases |events|
  {
    hide CollisionFree, Inv, Step, AllPresent, Lawful;
    if events != [] {
      RunPresent(h, layers, w, Front(events));
      RunKeeps(h, layers, w, Front(events));
      StepPresent(h, layers, Run(h, w, Front(events)), Last(events));
    }
  }

  /** A client that finishes without error, by its own commits or by finding those of others, leaves every
      layer of its image committed. */
  lemma RunSuccess(h: Hash, layers: iset<Digest>, w: World, events: seq<Event>, id: Id)
    requires CollisionFree(h, layers) && Initial(h, layers, w) && LawfulRun(h, w, events)
    requires id in Run(h, w, events).clients && Run(h, w, events).clients[id].phase == Finished(None)
    ensures
      var w' := Run(h, w, events);
      var c := w'.clients[id];
      forall n | 0 < n <= |c.layers| :: Have(h, w'.sn, c.layers, n)
  {
    hide Run, CollisionFree, PrefixClosed, LawfulRun;
    InitialInv(h, layers, w);
    InitialPresent(h, layers, w);
    RunKeeps(h, layers, w, events);
    RunPresent(h, layers, w, events);
    var w' := Run(h, w, events);
    var c := w'.clients[id];
    assert Present(h, w'.sn, c) && ClientOk(h, layers, w'.sn, c);
    if c.layers != [] {
      assert Have(h, w'.sn, c.layers, |c.layers|);
      assert c.layers[..|c.layers|] == c.layers;
      CommittedChain(h, layers, w'.sn, c.layers);
    }
  }

  lemma InitialPresent(h: Hash, layers: iset<Digest>, w: World)
    requires Initial(h, layers, w)
    ensures AllPresent(h, w)
  {
  }

  /** Why Apply must not fail with AlreadyExists: wherever the outermost call of the batch driver is applying its
      top layer, it takes the error for a lost race and returns without error, having committed nothing. */
  lemma ApplyAlreadyExistsIsSwallowed(h: Hash, w: World, id: Id, ch: Choice, after: Choice)
    requires id in w.clients && w.clients[id].mode == Batch
    requires w.clients[id].phase.Working? && w.clients[id].phase.pc.Applying?
    requires
      var stack := w.clients[id].phase.stack;
      |stack| == 1 && 1 <= stack[0].len <= |w.clients[id].layers|
    requires w.clients[id].phase.pc.key in w.sn.active && ch.fault == Some(AlreadyExists)
    ensures
      var w' := Step(h, Step(h, w, Act(id, ch)), Act(id, after));
      && w'.clients[id].phase == Finished(None)
      && w'.sn.committed == w.sn.committed && w'.log == w.log
  {
    hide ChainID;
    var c := w.clients[id];
    var w1 := Step(h, w, Act(id, ch));
    assert w1.clients[id] == c.(phase := Working(c.phase.stack, Cleaning(c.phase.pc.key, AlreadyExists)));
    assert w1.sn.committed == w.sn.committed && w1.log == w.log;
  }

  // ---- One creation per name ----

  ghost predicate CreatedOnce(w: World) {
    && (forall i | 0 <= i < |w.log| :: w.log[i].name in w.sn.committed)
    && (forall i, j | 0 <= i < j < |w.log| :: w.log[i].name != w.log[j].name)
  }

  lemma StepCreatesOnce(h: Hash, layers: iset<Digest>, w: World, e: Event)
    requires CollisionFree(h, layers) && Inv(h, layers, w) && CreatedOnce(w) && e.Act?
    ensures CreatedOnce(Step(h, w, e))
  {
    hide ClientOk, PrefixClosed, Advance, CollisionFree, ReportOk, Held, Name;
    if e.id in w.clients {
      AdvanceKeeps(h, layers, w.sn, w.clients[e.id], e.choice);
    }
  }

  /** Without removals from outside, a name is created at most once in a run, whoever the clients are. */
  lemma {:induction false} RunCreatesOnce(h: Hash, layers: iset<Digest>, w: World, events: seq<Event>)
    requires CollisionFree(h, layers) && Inv(h, layers, w) && CreatedOnce(w)
    requires forall e | e in events :: e.Act?
    ensures CreatedOnce(Run(h, w, events))
    decreases |events|
  {
    hide CollisionFree, Inv, Step, CreatedOnce;
    if events != [] {
      assert forall e | e in Front(events) :: e in events;
      RunCreatesOnce(h, layers, w, Front(events));
      RunKeeps(h, layers, w, Front(events));
      assert Last(events) in events;
      StepCreatesOnce(h, layers, Run(h, w, Front(events)), Last(events));
    }
  }

  // ---- What one client can rely on while others run ----

  /** Others never touch a client's own active snapshots; under a lease they never remove committed ones. */
  ghost predicate Rely(before: State, after: State, own: set<Key>, leased: bool) {
    && (forall k | k in own && k in before.active :: k in after.active && after.active[k] == before.active[k])
    && (leased ==>
          forall n | n in before.committed :: n in after.committed && after.committed[n] == before.committed[n])
  }

  lemma StepRely(h: Hash, layers: iset<Digest>, w: World, e: Event, id: Id, leased: bool)
    requires CollisionFree(h, layers) && Inv(h, layers, w) && id in w.clients
    requires e.Act? ==> e.id != id
    requires leased ==> e.Act?
    ensures
      var w' := Step(h, w, e);
      && id in w'.clients && w'.clients[id] == w.clients[id]
      && Rely(w.sn, w'.sn, Held(w.clients[id]), leased)
  {
    hide ClientOk, PrefixClosed, Advance, CollisionFree, ReportOk, Held, Name;
    if e.Act? && e.id in w.clients {
      AdvanceKeeps(h, layers, w.sn, w.clients[e.id], e.choice);
      assert Held(w.clients[id]) !! Held(w.clients[e.id]);
    } else if e.Reaped? {
      ReapKeeps(h, layers, w.sn, e.name);
    }
  }

  /** Whatever the other clients do, in any number of steps, is covered by `Rely`. */
  lemma {:induction false} RunRely(h: Hash, layers: iset<Digest>, w: World, events: seq<Event>, id: Id, leased: bool)
    requires CollisionFree(h, layers) && Inv(h, layers, w) && id in w.clients
    requires forall e | e in events :: (e.Act? ==> e.id != id) && (leased ==> e.Act?)
    ensures
      var w' := Run(h, w, events);
      && id in w'.clients && w'.clients[id] == w.clients[id]
      && Rely(w.sn, w'.sn, Held(w.clients[id]), leased)
      && PrefixClosed(h, layers, w'.sn)
    decreases |events|
  {
    hide CollisionFree, Step, PrefixClosed, ClientsOk, Held;
    if events != [] {
      assert forall e | e in Front(events) :: e in events;
      RunRely(h, layers, w, Front(events), id, leased);
      RunKeeps(h, layers, w, Front(events));
      assert Last(events) in events;
      StepRely(h, layers, Run(h, w, Front(events)), Last(events), id, leased);
      StepKeeps(h, layers, Run(h, w, Front(events)), Last(events));
    }
  }
}
