/** What holds in every run of the unpack protocol, whatever fails and whoever interferes. */
module ProtocolSafety {
  import opened GoStrings
  import opened ChainIds
  import opened Snapshots
  import opened Protocol

  // ---- One client ----

  /** Activations name shorter and shorter chains, never ask for more artifacts than their chain has, and
      a Loop client never recurses. */
  ghost predicate StackOk(c: Client, stack: seq<Frame>) {
    && stack != []
    && Goal(c) <= |c.layers|
    && (forall i | 0 <= i < |stack| ::
          stack[i].len == Goal(c) - i && 1 <= stack[i].len && stack[i].pending <= stack[i].len)
    && (c.mode == Loop ==> |stack| == 1 && stack[0].pending <= 1)
  }

  ghost predicate PcOk(h: Hash, sn: State, chain: seq<Digest>, pc: Pc)
    requires chain != []
  {
    match pc
    case Preparing => true
    case Applying(key) => Snapshots.Holds(h, sn, key, chain, false)
    case Committing(key) => Snapshots.Holds(h, sn, key, chain, true)
    case Cleaning(key, _) => key in sn.active
  }

  ghost predicate PhaseOk(h: Hash, sn: State, c: Client) {
    match c.phase
    case Asking => 1 <= Goal(c) <= |c.layers|
    case Working(stack, pc) => StackOk(c, stack) && PcOk(h, sn, Chain(c, Last(stack).len), pc)
    case Finished(err) => err.None? && c.mode == Loop ==> |c.reports| == |c.layers|
  }

  ghost predicate ClientOk(h: Hash, layers: iset<Digest>, sn: State, c: Client) {
    && Over(layers, c.layers)
    && |c.reports| <= |c.layers|
    && (c.mode == Batch ==> c.layers != [])
    && PhaseOk(h, sn, c)
  }

  /** The snapshotter's part of a move: only the client's own key is touched, and a commit adds one
      snapshot, the one the client was working on. */
  ghost predicate MoveOk(h: Hash, layers: iset<Digest>, sn: State, c: Client, m: Move) {
    && PrefixClosed(h, layers, m.sn)
    && (forall k | k in sn.active && k !in Held(c) :: k in m.sn.active && m.sn.active[k] == sn.active[k])
    && m.sn.active.Keys == (sn.active.Keys - Held(c)) + Held(m.client) + (if m.leaks then Held(c) else {})
    && (Held(m.client) <= Held(c) || Held(m.client) !! sn.active.Keys)
    && (m.leaks ==> Held(m.client) == {})
    && (if m.created
        then Name(h, c) !in sn.committed && m.sn.committed.Keys == sn.committed.Keys + {Name(h, c)}
             && forall n | n in sn.committed :: m.sn.committed[n] == sn.committed[n]
        else m.sn.committed == sn.committed)
  }

  /** The client's part: a call that created the snapshot answers true, one that found it answers false. */
  ghost predicate ReportOk(h: Hash, c: Client, m: Move) {
    && m.client.mode == c.mode && m.client.layers == c.layers
    && (c.mode == Loop ==>
          if m.created
          then m.client.reports == c.reports + [true] && |c.reports| < |c.layers|
               && Name(h, c) == ChainID(h, c.layers[..|c.reports| + 1])
          else m.client.reports == c.reports || m.client.reports == c.reports + [false])
  }

  lemma ConcludeOk(h: Hash, layers: iset<Digest>, sn: State, c: Client, applied: bool)
    requires Over(layers, c.layers) && 1 <= Goal(c) <= |c.layers| && |c.reports| <= |c.layers|
    ensures
      var d := Conclude(c, applied);
      && ClientOk(h, layers, sn, d) && Held(d) == {}
      && d.mode == c.mode && d.layers == c.layers
      && (c.mode == Loop ==> d.reports == c.reports + [applied])
  {
  }

  lemma ReturnOk(h: Hash, layers: iset<Digest>, sn: State, c: Client, stack: seq<Frame>, err: Option<Class>)
    requires Over(layers, c.layers) && StackOk(c, stack) && |c.reports| <= |c.layers|
    ensures
      var d := Return(c, stack, err);
      && ClientOk(h, layers, sn, d) && Held(d) == {}
      && d.mode == c.mode && d.layers == c.layers
      && (c.mode == Loop && err.None? ==> d.reports == c.reports + [true])
      && (c.mode == Loop && err.Some? ==> d.reports == c.reports || d.reports == c.reports + [false])
  {
    if !(err.Some? && err.value != AlreadyExists) {
      if |stack| == 1 {
        assert stack[0].len == Goal(c);
        ConcludeOk(h, layers, sn, c, err.None?);
      } else {
        var below := Front(stack);
        var s := Front(below) + [Last(below).(pending := 0)];
        forall i | 0 <= i < |s|
          ensures s[i].len == Goal(c) - i && 1 <= s[i].len && s[i].pending <= s[i].len
        {
          assert s[i].len == stack[i].len;
        }
        assert c.mode != Loop;
      }
    }
  }

  lemma AskingKeeps(h: Hash, layers: iset<Digest>, sn: State, c: Client, ch: Choice)
    requires CollisionFree(h, layers) && PrefixClosed(h, layers, sn) && ClientOk(h, layers, sn, c)
    requires c.phase.Asking?
    ensures
      var m := Advance(h, sn, c, ch);
      MoveOk(h, layers, sn, c, m) && ReportOk(h, c, m) && ClientOk(h, layers, m.sn, m.client)
  {
    hide MoveOk, PrefixClosed, CollisionFree, ChainID, Conclude;
    ConcludeOk(h, layers, sn, c, false);
    StayOk(h, layers, sn, c, Advance(h, sn, c, ch).client);
  }

  /** A move that leaves the snapshotter alone and holds what was held. */
  lemma StayOk(h: Hash, layers: iset<Digest>, sn: State, c: Client, d: Client)
    requires PrefixClosed(h, layers, sn) && Held(c) == Held(d) && Held(c) <= sn.active.Keys
    ensures MoveOk(h, layers, sn, c, Move(sn, d, false, false))
  {
  }

  lemma PreparedOk(h: Hash, layers: iset<Digest>, sn: State, c: Client, sn': State, key: Key)
    requires PrefixClosed(h, layers, sn') && ClientOk(h, layers, sn, c)
    requires c.phase.Working? && c.phase.pc.Preparing? && key !in sn.active
    requires Snapshots.Holds(h, sn', key, Chain(c, Last(c.phase.stack).len), false)
    requires sn' == sn.(active := sn.active[key := sn'.active[key]])
    ensures
      var m := Move(sn', c.(phase := Working(c.phase.stack, Applying(key))), false, false);
      MoveOk(h, layers, sn, c, m) && ReportOk(h, c, m) && ClientOk(h, layers, m.sn, m.client)
  {
    hide PrefixClosed, ChainID;
  }

  /** The missing parent is asked for in a new activation. */
  lemma DeeperOk(h: Hash, layers: iset<Digest>, sn: State, c: Client)
    requires ClientOk(h, layers, sn, c) && c.phase.Working? && Last(c.phase.stack).pending > 1
    ensures
      var top := Last(c.phase.stack);
      var d := c.(phase := Working(c.phase.stack + [Frame(top.len - 1, top.pending - 1)], Preparing));
      ClientOk(h, layers, sn, d)
  {
    hide ChainID;
    var stack := c.phase.stack;
    var top := Last(stack);
    var deeper := stack + [Frame(top.len - 1, top.pending - 1)];
    assert StackOk(c, deeper);
  }

  lemma PreparingKeeps(h: Hash, layers: iset<Digest>, sn: State, c: Client, ch: Choice)
    requires CollisionFree(h, layers) && PrefixClosed(h, layers, sn) && ClientOk(h, layers, sn, c)
    requires c.phase.Working? && c.phase.pc.Preparing?
    ensures
      var m := Advance(h, sn, c, ch);
      MoveOk(h, layers, sn, c, m) && ReportOk(h, c, m) && ClientOk(h, layers, m.sn, m.client)
  {
    hide PrefixClosed, CollisionFree, ChainID, MoveOk, Return;
    var stack := c.phase.stack;
    var top := Last(stack);
    var chain := Chain(c, top.len);
    var m := Advance(h, sn, c, ch);
    PrepareKeeps(h, layers, sn, ch.key, chain, ch.fault);
    var r := Prepare(sn, ch.key, ChainID(h, Front(chain)), ch.fault);
    if r.err.None? {
      PreparedOk(h, layers, sn, c, r.state, ch.key);
    } else {
      if r.err == Some(NotFound) && top.pending > 1 {
        DeeperOk(h, layers, sn, c);
      } else {
        ReturnOk(h, layers, sn, c, stack, r.err);
      }
      StayOk(h, layers, sn, c, m.client);
    }
  }

  lemma ApplyingKeeps(h: Hash, layers: iset<Digest>, sn: State, c: Client, ch: Choice)
    requires CollisionFree(h, layers) && PrefixClosed(h, layers, sn) && ClientOk(h, layers, sn, c)
    requires c.phase.Working? && c.phase.pc.Applying?
    ensures
      var m := Advance(h, sn, c, ch);
      MoveOk(h, layers, sn, c, m) && ReportOk(h, c, m) && ClientOk(h, layers, m.sn, m.client)
  {
    hide PrefixClosed, CollisionFree, ChainID;
    ApplyKeeps(h, layers, sn, c.phase.pc.key, Chain(c, Last(c.phase.stack).len), ch.fault, ch.debris);
  }

  /** A commit puts the client's own snapshot under its chain's name, and gives up the key. */
  lemma CommittedOk(h: Hash, layers: iset<Digest>, sn: State, c: Client, sn': State, d: Client)
    requires ClientOk(h, layers, sn, c) && c.phase.Working? && c.phase.pc.Committing?
    requires PrefixClosed(h, layers, sn') && Held(d) == {}
    requires
      var name := Name(h, c);
      && name !in sn.committed && name in sn'.committed
      && sn' == State(sn.committed[name := sn'.committed[name]], sn.active - {c.phase.pc.key})
    ensures MoveOk(h, layers, sn, c, Move(sn', d, true, false))
  {
    hide PrefixClosed, ChainID, Name;
  }

  lemma CommittingKeeps(h: Hash, layers: iset<Digest>, sn: State, c: Client, ch: Choice)
    requires CollisionFree(h, layers) && PrefixClosed(h, layers, sn) && ClientOk(h, layers, sn, c)
    requires c.phase.Working? && c.phase.pc.Committing?
    ensures
      var m := Advance(h, sn, c, ch);
      MoveOk(h, layers, sn, c, m) && ReportOk(h, c, m) && ClientOk(h, layers, m.sn, m.client)
  {
    hide PrefixClosed, CollisionFree, ChainID, MoveOk, Return;
    var stack := c.phase.stack;
    var chain := Chain(c, Last(stack).len);
    CommitKeeps(h, layers, sn, c.phase.pc.key, chain, ch.fault);
    var r := Commit(sn, ChainID(h, chain), c.phase.pc.key, ch.fault);
    if r.err.None? {
      ReturnOk(h, layers, r.state, c, stack, None);
      CommittedOk(h, layers, sn, c, r.state, Return(c, stack, None));
    } else {
      StayOk(h, layers, sn, c, Advance(h, sn, c, ch).client);
    }
  }

  lemma CleaningKeeps(h: Hash, layers: iset<Digest>, sn: State, c: Client, ch: Choice)
    requires CollisionFree(h, layers) && PrefixClosed(h, layers, sn) && ClientOk(h, layers, sn, c)
    requires c.phase.Working? && c.phase.pc.Cleaning?
    ensures
      var m := Advance(h, sn, c, ch);
      MoveOk(h, layers, sn, c, m) && ReportOk(h, c, m) && ClientOk(h, layers, m.sn, m.client)
  {
    ReturnOk(h, layers, Remove(sn, c.phase.pc.key, ch.works), c, c.phase.stack, Some(c.phase.pc.cause));
  }

  lemma AdvanceKeeps(h: Hash, layers: iset<Digest>, sn: State, c: Client, ch: Choice)
    requires CollisionFree(h, layers) && PrefixClosed(h, layers, sn) && ClientOk(h, layers, sn, c)
    ensures
      var m := Advance(h, sn, c, ch);
      MoveOk(h, layers, sn, c, m) && ReportOk(h, c, m) && ClientOk(h, layers, m.sn, m.client)
  {
    hide MoveOk, ReportOk, ClientOk, PrefixClosed;
    match c.phase
    case Asking => AskingKeeps(h, layers, sn, c, ch);
    case Working(_, Preparing) => PreparingKeeps(h, layers, sn, c, ch);
    case Working(_, Applying(_)) => ApplyingKeeps(h, layers, sn, c, ch);
    case Working(_, Committing(_)) => CommittingKeeps(h, layers, sn, c, ch);
    case Working(_, Cleaning(_, _)) => CleaningKeeps(h, layers, sn, c, ch);
    case Finished(_) => FinishedKeeps(h, layers, sn, c, ch);
  }

  lemma FinishedKeeps(h: Hash, layers: iset<Digest>, sn: State, c: Client, ch: Choice)
    requires PrefixClosed(h, layers, sn) && ClientOk(h, layers, sn, c) && c.phase.Finished?
    ensures
      var m := Advance(h, sn, c, ch);
      MoveOk(h, layers, sn, c, m) && ReportOk(h, c, m) && ClientOk(h, layers, m.sn, m.client)
  {
  }

  // ---- All clients ----

  ghost predicate ClientsOk(h: Hash, layers: iset<Digest>, w: World) {
    forall id | id in w.clients :: ClientOk(h, layers, w.sn, w.clients[id])
  }

  ghost predicate KeysApart(w: World) {
    forall i, j | i in w.clients && j in w.clients && i != j :: Held(w.clients[i]) !! Held(w.clients[j])
  }

  ghost predicate Inv(h: Hash, layers: iset<Digest>, w: World) {
    && PrefixClosed(h, layers, w.sn)
    && ClientsOk(h, layers, w)
    && KeysApart(w)
  }

  /** A world in which every client is about to start and the snapshotter is prefix-closed. */
  ghost predicate Initial(h: Hash, layers: iset<Digest>, w: World) {
    && PrefixClosed(h, layers, w.sn)
    && (forall id | id in w.clients :: Starts(w.clients[id]) && Over(layers, w.clients[id].layers))
    && w.log == [] && w.leaked == {}
  }

  /** A client's own situation does not depend on what happens to other keys. */
  lemma ClientFrame(h: Hash, layers: iset<Digest>, sn: State, sn': State, c: Client)
    requires ClientOk(h, layers, sn, c)
    requires forall k | k in Held(c) && k in sn.active :: k in sn'.active && sn'.active[k] == sn.active[k]
    ensures ClientOk(h, layers, sn', c)
  {
  }

  lemma HeldActive(h: Hash, layers: iset<Digest>, sn: State, c: Client)
    requires ClientOk(h, layers, sn, c)
    ensures Held(c) <= sn.active.Keys
  {
  }

  lemma StepKeeps(h: Hash, layers: iset<Digest>, w: World, e: Event)
    requires CollisionFree(h, layers) && Inv(h, layers, w)
    ensures Inv(h, layers, Step(h, w, e))
  {
    hide ClientOk, PrefixClosed, Advance, Held, CollisionFree;
    var w' := Step(h, w, e);
    match e
    case Reaped(name) =>
      ReapKeeps(h, layers, w.sn, name);
      forall id | id in w.clients ensures ClientOk(h, layers, w'.sn, w.clients[id]) {
        ClientFrame(h, layers, w.sn, w'.sn, w.clients[id]);
      }
    case Act(id, ch) =>
      if id in w.clients {
        var c := w.clients[id];
        var m := Advance(h, w.sn, c, ch);
        AdvanceKeeps(h, layers, w.sn, c, ch);
        forall i | i in w.clients && i != id
          ensures ClientOk(h, layers, m.sn, w.clients[i]) && Held(w.clients[i]) !! Held(m.client)
        {
          HeldActive(h, layers, w.sn, w.clients[i]);
          assert Held(w.clients[i]) !! Held(c);
          ClientFrame(h, layers, w.sn, m.sn, w.clients[i]);
        }
      }
  }

  lemma InitialInv(h: Hash, layers: iset<Digest>, w: World)
    requires Initial(h, layers, w)
    ensures Inv(h, layers, w)
  {
  }

  /** In every run the committed snapshots stay prefix-closed, each with its own chain's content, and no
      two clients share a key. */
  lemma {:induction false} RunKeeps(h: Hash, layers: iset<Digest>, w: World, events: seq<Event>)
    requires CollisionFree(h, layers) && Inv(h, layers, w)
    ensures Inv(h, layers, Run(h, w, events))
    decreases |events|
  {
    hide CollisionFree, Inv, Step;
    if events != [] {
      RunKeeps(h, layers, w, Front(events));
      StepKeeps(h, layers, Run(h, w, Front(events)), Last(events));
    }
  }

  /** The same, read for one chain: if its name is committed, then it is its own snapshot and every
      shorter chain is committed under its own name with its own content. */
  lemma RunPrefixClosed(h: Hash, layers: iset<Digest>, w: World, events: seq<Event>, chain: seq<Digest>)
    requires CollisionFree(h, layers) && Initial(h, layers, w)
    requires chain != [] && Over(layers, chain) && ChainID(h, chain) in Run(h, w, events).sn.committed
    ensures
      var committed := Run(h, w, events).sn.committed;
      forall i | 0 < i <= |chain| ::
        && ChainID(h, chain[..i]) in committed
        && committed[ChainID(h, chain[..i])] == Snapshot(ChainID(h, chain[..i - 1]), chain[..i])
  {
    hide Run, PrefixClosed, CollisionFree, Initial, ChainID, ClientsOk, KeysApart;
    InitialInv(h, layers, w);
    RunKeeps(h, layers, w, events);
    var sn := Run(h, w, events).sn;
    CommittedChain(h, layers, sn, chain);
    forall i | 0 < i <= |chain|
      ensures sn.committed[ChainID(h, chain[..i])] == Snapshot(ChainID(h, chain[..i - 1]), chain[..i])
    {
      assert Front(chain[..i]) == chain[..i - 1];
      CommittedChain(h, layers, sn, chain[..i]);
    }
  }
}
