/** The two unpack drivers as code: `ApplyArtifactsWithOpts` with its recursion inside a retry loop, and the
    loop of `Unpack`. Other clients run between any two calls to the snapshotter. */
module Drivers {
  import opened GoStrings
  import opened ChainIds
  import opened Snapshots
  import opened ProtocolResults
  import opened Unpack
  import P = Protocol

  function Digests(artifacts: seq<Artifact>): seq<Digest> {
    seq(|artifacts|, i requires 0 <= i < |artifacts| => artifacts[i].blob.digest)
  }

  function LayerDigests(manifest: seq<Descriptor>): seq<Digest> {
    seq(|manifest|, i requires 0 <= i < |manifest| => manifest[i].digest)
  }

  function Blobs(artifacts: seq<Artifact>): seq<Descriptor> {
    seq(|artifacts|, i requires 0 <= i < |artifacts| => artifacts[i].blob)
  }

  /** The last n elements, or all of them. */
  function Tail<T>(s: seq<T>, n: nat): seq<T> {
    if n <= |s| then s[|s| - n..] else s
  }

  ghost predicate Grows(before: map<Digest, Snapshot>, after: map<Digest, Snapshot>) {
    forall n | n in before :: n in after && after[n] == before[n]
  }

  /** One step of this client on the shared snapshotter, and the keys it held before. */
  datatype Change = Change(before: State, after: State, own: set<Key>)

  /** The step is covered by what other clients rely on, even under their lease. */
  ghost predicate Courteous(ch: Change) {
    Rely(ch.before, ch.after, ch.before.active.Keys - ch.own, true)
  }

  ghost predicate AllCourteous(steps: seq<Change>) {
    forall i | 0 <= i < |steps| :: Courteous(steps[i])
  }

  lemma StepAdded(steps: seq<Change>, ch: Change)
    requires AllCourteous(steps) && Courteous(ch)
    ensures AllCourteous(steps + [ch])
  {
    hide Courteous;
  }

  // ---- The driver as a client of the machine ----

  /** One step of this client in the machine of `Protocol`: what it met, how its choices fell, what it left. */
  datatype Turn = Turn(before: State, choice: P.Choice, after: State)

  /** Where the turns take a client. */
  ghost function Replay(h: Hash, start: P.Client, turns: seq<Turn>): P.Client {
    if turns == [] then start
    else P.Advance(h, Last(turns).before, Replay(h, start, Front(turns)), Last(turns).choice).client
  }

  /** Every turn is a step of the machine, and together they take the client from its start to where it is. */
  ghost predicate Plays(h: Hash, start: P.Client, turns: seq<Turn>, client: P.Client) {
    && client == Replay(h, start, turns)
    && forall i | 0 <= i < |turns| ::
         P.Advance(h, turns[i].before, Replay(h, start, turns[..i]), turns[i].choice).sn == turns[i].after
  }

  lemma TurnAdded(h: Hash, start: P.Client, turns: seq<Turn>, client: P.Client, turn: Turn)
    requires Plays(h, start, turns, client) && P.Advance(h, turn.before, client, turn.choice).sn == turn.after
    ensures Plays(h, start, turns + [turn], P.Advance(h, turn.before, client, turn.choice).client)
  {
    var longer := turns + [turn];
    assert Front(longer) == turns && longer[..|turns|] == turns;
    forall i | 0 <= i < |turns| ensures longer[..i] == turns[..i] {}
  }

  lemma NoTurns(h: Hash, start: P.Client)
    ensures Plays(h, start, [], start)
  {
  }

  /** The turns that a run of the machine gives one client, with the states it meets and leaves. */
  ghost function TurnsOf(h: Hash, w: P.World, events: seq<P.Event>, id: P.Id): seq<Turn> {
    if events == [] then []
    else
      var before, e := TurnsOf(h, w, Front(events), id), Last(events);
      if e.Act? && e.id == id then
        before + [Turn(P.Run(h, w, Front(events)).sn, e.choice, P.Run(h, w, events).sn)]
      else before
  }

  /** In every run of the machine, whatever the other clients do, a client's turns are a session's, and a session
      with these turns has come to where that client is. */
  lemma {:induction false} RunReplays(h: Hash, w: P.World, events: seq<P.Event>, id: P.Id)
    requires id in w.clients
    ensures
      var after := P.Run(h, w, events);
      && id in after.clients
      && (forall client :: Plays(h, w.clients[id], TurnsOf(h, w, events, id), client) <==> client == after.clients[id])
    decreases |events|
  {
    hide P.Advance;
    if events == [] {
      NoTurns(h, w.clients[id]);
    } else {
      var before, e := P.Run(h, w, Front(events)), Last(events);
      RunReplays(h, w, Front(events), id);
      var turns := TurnsOf(h, w, Front(events), id);
      assert Plays(h, w.clients[id], turns, before.clients[id]);
      if e.Act? && e.id == id {
        TurnAdded(h, w.clients[id], turns, before.clients[id], Turn(before.sn, e.choice, P.Run(h, w, events).sn));
      }
    }
  }

  /** The client is in an activation for the chain, at the given place. */
  ghost predicate Doing(c: P.Client, pc: P.Pc, chain: seq<Digest>) {
    && c.phase.Working? && c.phase.pc == pc && c.phase.stack != []
    && Last(c.phase.stack).len == |chain| && chain <= c.layers
  }

  ghost function Moved(c: P.Client, pc: P.Pc): P.Client
    requires c.phase.Working?
  {
    c.(phase := P.Working(c.phase.stack, pc))
  }

  ghost function Returned(c: P.Client, err: Error): P.Client
    requires c.phase.Working? && c.phase.stack != []
  {
    P.Return(c, c.phase.stack, err)
  }

  /** The same with the given number of artifacts left in the top activation. */
  ghost function Pending(c: P.Client, n: nat): P.Client
    requires c.phase.Working? && c.phase.stack != []
  {
    c.(phase := P.Working(Front(c.phase.stack) + [Last(c.phase.stack).(pending := n)], c.phase.pc))
  }

  ghost function AfterPrepare(c: P.Client, key: Key, err: Error): P.Client
    requires c.phase.Working? && c.phase.stack != []
  {
    var top := Last(c.phase.stack);
    if err.None? then Moved(c, P.Applying(key))
    else if err.value == AlreadyExists then c
    else if err.value == NotFound && top.pending > 1 then
      var len := if top.len > 0 then top.len - 1 else 0;
      c.(phase := P.Working(c.phase.stack + [P.Frame(len, top.pending - 1)], P.Preparing))
    else Returned(c, err)
  }

  lemma PrepareTurn(h: Hash, s: State, c: P.Client, chain: seq<Digest>, key: Key, fault: Error)
    requires chain != [] && Doing(c, P.Preparing, chain)
    ensures
      var r := Snapshots.Prepare(s, key, ChainID(h, Front(chain)), fault);
      var m := P.Advance(h, s, c, P.Choice(key, fault, [], true));
      m.sn == r.state && m.client == AfterPrepare(c, key, r.err)
  {
    hide ChainID;
    assert c.layers[..|chain|] == chain;
  }

  lemma ApplyTurn(h: Hash, s: State, c: P.Client, chain: seq<Digest>, key: Key, fault: Error, debris: seq<Digest>)
    requires chain != [] && Doing(c, P.Applying(key), chain) && key in s.active
    ensures
      var r := Snapshots.Apply(s, key, Last(chain), fault, debris);
      var m := P.Advance(h, s, c, P.Choice(key, fault, debris, true));
      && m.sn == r.state
      && m.client == Moved(c, if fault.None? then P.Committing(key) else P.Cleaning(key, fault.value))
  {
    hide ChainID;
    assert c.layers[..|chain|] == chain;
  }

  lemma CommitTurn(h: Hash, s: State, c: P.Client, chain: seq<Digest>, key: Key, fault: Error)
    requires chain != [] && Doing(c, P.Committing(key), chain)
    ensures
      var r := Snapshots.Commit(s, ChainID(h, chain), key, fault);
      var m := P.Advance(h, s, c, P.Choice(key, fault, [], true));
      && m.sn == (if r.err.None? then r.state else s)
      && m.client == if r.err.None? then Returned(c, None) else Moved(c, P.Cleaning(key, r.err.value))
  {
    hide ChainID, P.Return;
    assert c.layers[..|chain|] == chain;
  }

  lemma RemoveTurn(h: Hash, s: State, c: P.Client, chain: seq<Digest>, key: Key, cause: Class, works: bool)
    requires chain != [] && Doing(c, P.Cleaning(key, cause), chain)
    ensures
      var m := P.Advance(h, s, c, P.Choice(key, None, [], works));
      m.sn == Snapshots.Remove(s, key, works) && m.client == Returned(c, Some(cause))
  {
    hide ChainID, P.Return;
  }

  lemma PendingHere(c: P.Client, pc: P.Pc, chain: seq<Digest>)
    requires Doing(c, pc, chain)
    ensures c.phase.Working? && c.phase.stack != []
    ensures Pending(c, Last(c.phase.stack).pending) == c
  {
    assert Front(c.phase.stack) + [Last(c.phase.stack)] == c.phase.stack;
  }

  lemma PendingTwice(c: P.Client, n: nat, m: nat)
    requires c.phase.Working? && c.phase.stack != []
    ensures Pending(Pending(c, n), m) == Pending(c, m)
  {
  }

  /** Where a call returns to does not depend on its own activation. */
  lemma ReturnedSame(c: P.Client, pc: P.Pc, n: nat, err: Error)
    requires c.phase.Working? && c.phase.stack != []
    ensures Returned(Pending(Moved(c, pc), n), err) == Returned(c, err)
  {
    var stack := c.phase.stack;
    var other := Front(stack) + [Last(stack).(pending := n)];
    assert Front(other) == Front(stack) && |other| == |stack|;
    ReturnOnly(c, Pending(Moved(c, pc), n), stack, other, err);
  }

  lemma ReturnOnly(c: P.Client, d: P.Client, stack: seq<P.Frame>, other: seq<P.Frame>, err: Error)
    requires d.mode == c.mode && d.layers == c.layers && d.reports == c.reports
    requires stack != [] && other != [] && Front(stack) == Front(other) && |stack| == |other|
    ensures P.Return(d, other, err) == P.Return(c, stack, err)
  {
  }

  /** What the call of either driver comes to when its outermost activation returns. */
  lemma CallReturns(c: P.Client, chain: seq<Digest>, err: Error)
    requires c.phase.Asking? && chain != [] && chain <= c.layers && P.Goal(c) == |chain|
    ensures
      var d := AfterStat(c, Some(NotFound));
      && Doing(d, P.Preparing, chain)
      && Last(d.phase.stack).pending == (if c.mode == P.Batch then |chain| else 1)
      && Returned(d, err)
         == if err.None? || err.value == AlreadyExists then P.Conclude(c, err.None?) else c.(phase := P.Finished(err))
  {
  }

  lemma PendingReturns(c: P.Client, n: nat, err: Error)
    requires c.phase.Working? && c.phase.stack != []
    ensures Returned(Pending(c, n), err) == Returned(c, err)
  {
    hide P.Return;
    ReturnedSame(c, c.phase.pc, n, err);
  }

  lemma FailureReturns(c: P.Client, err: Error)
    requires c.phase.Working? && c.phase.stack != [] && err.Some? && err.value != AlreadyExists
    ensures Returned(c, err) == c.(phase := P.Finished(err))
  {
  }

  lemma StatAnswers(c: P.Client, err: Error)
    ensures err.None? ==> AfterStat(c, err) == P.Conclude(c, false)
    ensures err.Some? && err != Some(NotFound) ==> AfterStat(c, err) == c.(phase := P.Finished(err))
  {
    hide P.Conclude;
  }

  lemma BatchConcludes(c: P.Client, applied: bool)
    requires c.mode == P.Batch
    ensures P.Conclude(c, applied).phase == P.Finished(None)
  {
  }

  lemma LoopConcludes(c: P.Client, applied: bool)
    requires c.mode == P.Loop
    ensures
      var d := P.Conclude(c, applied);
      && d.mode == c.mode && d.layers == c.layers && |d.reports| == |c.reports| + 1
      && d.phase == if |d.reports| >= |c.layers| then P.Finished(None) else P.Asking
  {
  }

  /** The activation for the parent, when it returns, leaves its caller with no artifacts. */
  lemma DeeperReturns(c: P.Client, key: Key, chain: seq<Digest>, inner: Error)
    requires chain != [] && Doing(c, P.Preparing, chain) && Last(c.phase.stack).pending > 1
    ensures
      var d := AfterPrepare(c, key, Some(NotFound));
      && Doing(d, P.Preparing, Front(chain)) && Last(d.phase.stack).pending == Last(c.phase.stack).pending - 1
      && Returned(d, inner)
         == if inner.None? || inner.value == AlreadyExists then Pending(c, 0) else c.(phase := P.Finished(inner))
  {
    var d := AfterPrepare(c, key, Some(NotFound));
    assert Front(d.phase.stack) == c.phase.stack;
  }

  lemma MovedReturns(c: P.Client, pc: P.Pc, err: Error)
    requires c.phase.Working? && c.phase.stack != []
    ensures Moved(c, pc).phase.Working? && Moved(c, pc).phase.stack == c.phase.stack
    ensures Returned(Moved(c, pc), err) == Returned(c, err)
  {
    hide P.Return;
    ReturnOnly(c, Moved(c, pc), c.phase.stack, c.phase.stack, err);
  }

  /** One turn of the retry loop with n artifacts left: the key is prepared, or already in use, or the parent is
      asked for, or the call fails. */
  lemma TryTurn(c: P.Client, chain: seq<Digest>, n: nat, key: Key, err: Error)
    requires chain != [] && Doing(c, P.Preparing, chain)
    ensures
      var d := Pending(c, n);
      var d' := AfterPrepare(d, key, err);
      && Doing(d, P.Preparing, chain)
      && (err.None? ==>
            && Doing(d', P.Applying(key), chain) && Last(d'.phase.stack).pending == n
            && d' == Pending(Moved(c, P.Applying(key)), n))
      && (err == Some(AlreadyExists) ==> d' == d)
      && (err == Some(NotFound) && n > 1 ==>
            Doing(d', P.Preparing, Front(chain)) && Last(d'.phase.stack).pending == n - 1)
      && (err.Some? && err != Some(AlreadyExists) && !(err == Some(NotFound) && n > 1) ==> d' == Returned(c, err))
  {
    hide P.Return, P.Conclude;
    PendingReturns(c, n, err);
  }

  /** After the parent's activation the loop goes on with no artifacts, or the call fails as the parent's did. */
  lemma ParentTurn(c: P.Client, chain: seq<Digest>, n: nat, key: Key, inner: Error)
    requires chain != [] && Doing(c, P.Preparing, chain) && n > 1
    ensures
      var d := AfterPrepare(Pending(c, n), key, Some(NotFound));
      && d.phase.Working? && d.phase.stack != []
      && Returned(d, inner)
         == if inner.None? || inner.value == AlreadyExists then Pending(c, 0) else Returned(c, inner)
  {
    hide P.Return, P.Conclude, Returned, AfterPrepare;
    DeeperReturns(Pending(c, n), key, chain, inner);
    PendingTwice(c, n, 0);
    if inner.Some? && inner.value != AlreadyExists {
      FailureReturns(c, inner);
    }
  }

  /** Stat's answer, as the client takes it. */
  ghost function AfterStat(c: P.Client, err: Error): P.Client {
    match err
    case None => P.Conclude(c, false)
    case Some(NotFound) =>
      c.(phase := P.Working([P.Frame(P.Goal(c), if c.mode == P.Batch then P.Goal(c) else 1)], P.Preparing))
    case _ => c.(phase := P.Finished(err))
  }

  lemma StatTurn(h: Hash, s: State, c: P.Client, name: Digest, fault: Error)
    requires c.phase.Asking? && name == ChainID(h, P.Chain(c, P.Goal(c)))
    ensures
      var m := P.Advance(h, s, c, P.Choice(0, fault, [], true));
      m.sn == s && m.client == AfterStat(c, Snapshots.Stat(s, name, fault))
  {
    hide ChainID, P.Conclude;
  }

  /** The client of an unpack loop that has come to the last layer of the target. */
  ghost predicate Due(c: P.Client, target: seq<Digest>) {
    c.mode == P.Loop && c.phase.Asking? && |c.reports| + 1 == |target| && target <= c.layers
  }

  /** A client for a call on its own: the layers below are taken as given. */
  ghost function ForOne(target: seq<Digest>): P.Client
    requires target != []
  {
    P.Client(P.Loop, target, seq(|target| - 1, _ => false), P.Asking)
  }

  /** One client's session with the shared snapshotter and its applier. */
  class Session {
    const h: Hash
    ghost const layers: iset<Digest>
    /** No call fails and no other client is about. */
    const calm: bool
    /** Nobody removes committed snapshots, as under the lease that `Unpack` takes. */
    const leased: bool
    /** Apply never fails with AlreadyExists. */
    const safe: bool

    var state: State
    /** The descriptors passed to Apply, in order. */
    var applies: seq<Descriptor>
    /** How many more keys already in use the key source may draw. */
    var patience: nat
    /** The keys this client has prepared and not given up, those it failed to remove, and the names it
        committed. */
    ghost var own: set<Key>
    ghost var leaked: set<Key>
    ghost var created: seq<Digest>
    /** Every change this client has made to the snapshotter. */
    ghost var steps: seq<Change>
    /** The client of the machine that the running driver is, where it started, and its turns. */
    ghost var client: P.Client
    ghost var start: P.Client
    ghost var turns: seq<Turn>

    /** The snapshotter is sound, this client has guaranteed to all others what it relies on itself, and it is a
        client of the machine. */
    ghost predicate Valid()
      reads this
    {
      && CollisionFree(h, layers) && PrefixClosed(h, layers, state) && own <= state.active.Keys
      && AllCourteous(steps) && Plays(h, start, turns, client)
    }

    constructor (h: Hash, ghost layers: iset<Digest>, state: State, calm: bool, leased: bool, safe: bool, patience: nat)
      requires CollisionFree(h, layers) && PrefixClosed(h, layers, state)
      ensures Valid() && this.h == h && this.layers == layers && this.state == state && applies == []
      ensures this.calm == calm && this.leased == leased && this.safe == safe
      ensures own == {} && leaked == {} && created == [] && steps == []
    {
      this.h, this.layers, this.calm, this.leased, this.safe := h, layers, calm, leased, safe;
      this.state, this.applies, this.patience := state, [], patience;
      own, leaked, created, steps := {}, {}, [], [];
      client := P.Client(P.Loop, [], [], P.Finished(None));
      start, turns := P.Client(P.Loop, [], [], P.Finished(None)), [];
      new;
      NoTurns(h, start);
    }

    /** A driver starts as the given client. */
    ghost method Begin(c: P.Client)
      requires Valid()
      modifies this`client, this`start, this`turns
      ensures Valid() && client == start == c && turns == []
    {
      client, start, turns := c, c, [];
      NoTurns(h, c);
    }

    /** The client has taken one turn, which brought the snapshotter to its present state. */
    ghost method Take(before: State, ch: P.Choice)
      requires Plays(h, start, turns, client) && P.Advance(h, before, client, ch).sn == state
      modifies this`client, this`turns
      ensures Plays(h, start, turns, client)
      ensures client == P.Advance(h, before, old(client), ch).client
      ensures turns == old(turns) + [Turn(before, ch, state)]
    {
      TurnAdded(h, start, turns, client, Turn(before, ch, state));
      turns, client := turns + [Turn(before, ch, state)], P.Advance(h, before, client, ch).client;
    }

    // ---- The outside world ----

    /** Other clients take any number of steps here. That their steps amount to no more than this is
        `ProtocolResults.RunRely`. */
    method Yield()
      requires Valid()
      modifies this`state
      ensures Valid()
      ensures Rely(old(state), state, own, leased)
      ensures calm ==> state == old(state)
    {
    }

    /** A call fails for reasons of its own, with any class but the excluded one. */
    method Fault(excluded: Error) returns (f: Error)
      ensures calm ==> f.None?
      ensures f.Some? ==> f != excluded
    {
      f := *;
      if calm || f == excluded {
        f := None;
      }
    }

    /** Draws a key; one already in use costs patience, and without patience left the key is fresh. */
    method UniquePart() returns (key: Key)
      modifies this`patience
      ensures patience <= old(patience)
      ensures key in state.active ==> patience < old(patience)
    {
      key := *;
      if key in state.active {
        if patience > 0 {
          patience := patience - 1;
        } else {
          key := FreshKey(state.active.Keys);
        }
      }
    }

    method Stat(name: Digest) returns (err: Error, ghost fault: Error)
      requires Valid()
      ensures err == Snapshots.Stat(state, name, fault)
      ensures err.None? ==> name in state.committed
      ensures err == Some(NotFound) ==> name !in state.committed
      ensures calm ==> err == if name in state.committed then None else Some(NotFound)
    {
      var f := Fault(Some(NotFound));
      return Snapshots.Stat(state, name, f), f;
    }

    /** The Stat at the head of either driver's call: a turn of its client. */
    method Ask(name: Digest) returns (err: Error)
      requires Valid() && client.phase.Asking? && name == ChainID(h, P.Chain(client, P.Goal(client)))
      modifies this`client, this`turns
      ensures Valid() && old(turns) <= turns && client == AfterStat(old(client), err)
      ensures err.None? ==> name in state.committed
      ensures err == Some(NotFound) ==> name !in state.committed
      ensures calm ==> err == if name in state.committed then None else Some(NotFound)
    {
      hide CollisionFree, PrefixClosed, AllCourteous, ChainID, Plays, P.Advance, AfterStat;
      ghost var fault;
      err, fault := Stat(name);
      StatTurn(h, state, client, name, fault);
      Take(state, P.Choice(0, fault, [], true));
    }

    method Prepare(key: Key, parent: Digest, ghost chain: seq<Digest>) returns (err: Error)
      requires Valid() && chain != [] && Over(layers, chain) && parent == ChainID(h, Front(chain))
      requires Doing(client, P.Preparing, chain)
      modifies this`state, this`own, this`steps, this`client, this`turns
      ensures old(turns) <= turns && client == AfterPrepare(old(client), key, err)
      ensures Valid() && steps == old(steps) + [Change(old(state), state, old(own))]
      ensures err.None? ==>
                && key !in old(state.active) && own == old(own) + {key}
                && Snapshots.Holds(h, state, key, chain, false)
                && state == old(state).(active := old(state.active)[key := state.active[key]])
      ensures err.Some? ==> state == old(state) && own == old(own)
      ensures err == Some(AlreadyExists) ==> key in old(state.active)
      ensures calm && err != Some(AlreadyExists) ==> (err.None? <==> ParentThere(old(state), parent))
      ensures calm && err.Some? && err != Some(AlreadyExists) ==> err == Some(NotFound)
    {
      hide CollisionFree, PrefixClosed, AllCourteous, ChainID, Plays, P.Advance, P.Return, P.Conclude, AfterPrepare;
      var fault := Fault(Some(AlreadyExists));
      ghost var before := state;
      PrepareTurn(h, state, client, chain, key, fault);
      PrepareKeeps(h, layers, state, key, chain, fault);
      var r := Snapshots.Prepare(state, key, parent, fault);
      err := r.err;
      StepAdded(steps, Change(state, r.state, own));
      steps := steps + [Change(state, r.state, own)];
      if err.None? {
        state := r.state;
        own := own + {key};
      }
      Take(before, P.Choice(key, fault, [], true));
    }

    /** Applies the layer and reports the digest of what was applied. */
    method Apply(key: Key, blob: Descriptor, ghost chain: seq<Digest>) returns (diff: Digest, err: Error)
      requires Valid() && chain != [] && Over(layers, chain) && blob.digest == Last(chain)
      requires key in own && Snapshots.Holds(h, state, key, chain, false) && Doing(client, P.Applying(key), chain)
      modifies this`state, this`applies, this`steps, this`client, this`turns
      ensures
        var failed := if err.None? && diff != blob.digest then Some(Other) else err;
        && old(turns) <= turns
        && client == Moved(old(client), if failed.None? then P.Committing(key) else P.Cleaning(key, failed.value))
      ensures Valid() && applies == old(applies) + [blob]
      ensures steps == old(steps) + [Change(old(state), state, own)]
      ensures key in state.active && state == old(state).(active := old(state.active)[key := state.active[key]])
      ensures err.None? && diff == blob.digest ==> Snapshots.Holds(h, state, key, chain, true)
      ensures safe ==> err != Some(AlreadyExists)
      ensures calm ==> err.None? && diff == blob.digest
    {
      hide CollisionFree, PrefixClosed, AllCourteous, ChainID, Plays, P.Advance, P.Return, P.Conclude;
      applies := applies + [blob];
      diff := *;
      if calm {
        diff := blob.digest;
      }
      var fault := Fault(if safe then Some(AlreadyExists) else None);
      var debris: seq<Digest> := *;
      ghost var before := state;
      ApplyKeeps(h, layers, state, key, chain, fault, debris);
      var r := Snapshots.Apply(state, key, blob.digest, fault, debris);
      StepAdded(steps, Change(state, r.state, own));
      steps := steps + [Change(state, r.state, own)];
      state, err := r.state, r.err;
      // A digest that differs is a failure that leaves what was applied.
      ghost var failed := if err.None? && diff != blob.digest then Some(Other) else err;
      ghost var left := state.active[key].content;
      ApplyTurn(h, before, client, chain, key, failed, left);
      Take(before, P.Choice(key, failed, left, true));
    }

    method Commit(name: Digest, key: Key, ghost chain: seq<Digest>) returns (err: Error)
      requires Valid() && chain != [] && Over(layers, chain) && name == ChainID(h, chain)
      requires key in own && Snapshots.Holds(h, state, key, chain, true) && Doing(client, P.Committing(key), chain)
      modifies this`state, this`own, this`created, this`steps, this`client, this`turns
      ensures old(turns) <= turns && client
           == if err.None? then Returned(old(client), None) else Moved(old(client), P.Cleaning(key, err.value))
      ensures Valid() && steps == old(steps) + [Change(old(state), state, old(own))]
      ensures err.None? ==>
                && name !in old(state.committed)
                && state == State(old(state.committed)[name := Snapshot(ChainID(h, Front(chain)), chain)],
                                  old(state.active) - {key})
                && own == old(own) - {key} && created == old(created) + [name]
      ensures err.Some? ==> state == old(state) && own == old(own) && created == old(created)
      ensures err == Some(AlreadyExists) ==> name in state.committed
      ensures calm && name !in old(state.committed) ==> err.None?
    {
      hide CollisionFree, PrefixClosed, AllCourteous, ChainID, Plays, P.Advance, P.Return, P.Conclude;
      var fault := Fault(Some(AlreadyExists));
      ghost var before := state;
      CommitTurn(h, state, client, chain, key, fault);
      CommitKeeps(h, layers, state, key, chain, fault);
      var r := Snapshots.Commit(state, name, key, fault);
      err := r.err;
      StepAdded(steps, Change(state, r.state, own));
      steps := steps + [Change(state, r.state, own)];
      if err.None? {
        state := r.state;
        own := own - {key};
        created := created + [name];
      }
      Take(before, P.Choice(key, fault, [], true));
    }

    /** Removes an own key; when that fails the key stays active for good. */
    method Remove(key: Key, ghost cause: Class, ghost chain: seq<Digest>)
      requires Valid() && key in own && chain != [] && Doing(client, P.Cleaning(key, cause), chain)
      modifies this`state, this`own, this`leaked, this`steps, this`client, this`turns
      ensures old(turns) <= turns && client == Returned(old(client), Some(cause))
      ensures Valid() && own == old(own) - {key} && steps == old(steps) + [Change(old(state), state, old(own))]
      ensures state.committed == old(state.committed)
      ensures (leaked == old(leaked) && state.active == old(state.active) - {key})
           || (leaked == old(leaked) + {key} && state == old(state))
      ensures calm ==> leaked == old(leaked)
    {
      hide AllCourteous, CollisionFree, Plays, P.Advance, P.Return, P.Conclude, ChainID;
      var fault := Fault(None);
      ghost var before := state;
      RemoveTurn(h, state, client, chain, key, cause, fault.None?);
      state := Snapshots.Remove(state, key, fault.None?);
      StepAdded(steps, Change(before, state, own));
      steps := steps + [Change(before, state, own)];
      own := own - {key};
      if fault.Some? {
        leaked := leaked + {key};
      }
      Take(before, P.Choice(key, None, [], fault.None?));
    }

    // ---- The drivers ----

    /** Committed snapshots only grow under a lease, and no own step is forgotten. */
    twostate predicate Grown()
      reads this
    {
      (leased ==> Grows(old(state.committed), state.committed)) && old(steps) <= steps
    }

    /** Nothing of this client's is left behind but what it failed to remove. */
    twostate predicate GaveUpKeys()
      reads this
    {
      own == old(own) && old(leaked) <= leaked && (calm ==> leaked == old(leaked))
    }

    /** The chain was completed from where it stood, nothing else happened, and Apply was given the descriptors of
        the layers that were missing. */
    twostate predicate Completed(chain: seq<Digest>, blobs: seq<Descriptor>)
      reads this
    {
      && state == old(state).(committed := Complete(h, old(state.committed), chain))
      && applies == old(applies) + Tail(blobs, |Missing(h, old(state.committed), chain)|)
    }

    /** Whatever happened, Apply was given none but these descriptors. */
    twostate predicate Given(blobs: seq<Descriptor>)
      reads this
    {
      Within(old(applies), applies, blobs)
    }


    /** The calm case promises something when the chain is missing and what lies below it is either there or
        among the artifacts. */
    ghost predicate Ready(artifacts: seq<Artifact>, chain: seq<Digest>)
      requires chain != []
      reads this
    {
      && ChainID(h, chain) !in state.committed
      && (|artifacts| == |chain| || ParentThere(state, ChainID(h, Front(chain))))
    }

    /** `applyArtifacts`. */
    method ApplyArtifacts(artifacts: seq<Artifact>, chain: seq<Digest>) returns (err: Error)
      requires Valid() && chain != [] && Over(layers, chain)
      requires 0 < |artifacts| <= |chain| && Digests(artifacts) == chain[|chain| - |artifacts|..]
      requires Doing(client, P.Preparing, chain) && Last(client.phase.stack).pending == |artifacts|
      modifies this
      ensures Valid() && Grown() && GaveUpKeys()
      ensures start == old(start) && old(turns) <= turns && client == Returned(old(client), err)
      ensures leased && (err.None? || (safe && err == Some(AlreadyExists))) ==> ChainID(h, chain) in state.committed
      ensures |artifacts| == 1 ==> created == old(created) + if err.None? then [ChainID(h, chain)] else []
      ensures patience <= old(patience)
      ensures calm && old(Ready(artifacts, chain)) ==> err.None? && Completed(chain, Blobs(artifacts))
      ensures Given(Blobs(artifacts))
      decreases |chain|, 2
    {
      hide CollisionFree, PrefixClosed, AllCourteous, ChainID, Complete, Missing, Snapshots.Holds;
      hide Plays, P.Advance, P.Return, Tail, Blobs, Digests, Over;
      FrontArtifacts(artifacts, chain);
      if calm && Ready(artifacts, chain) {
        CompleteLast(h, layers, state, chain);
      }
      TailFront(artifacts, |Missing(h, state.committed, Front(chain))|);
      var key;
      key, err := PrepareOverParent(artifacts, chain);
      if err.Some? {
        return;
      }
      ghost var before := client;
      err := ApplyAndCommit(key, artifacts[|artifacts| - 1], chain);
      ReturnedSame(old(client), P.Applying(key), Last(before.phase.stack).pending, err);
    }

    /** The part of `applyArtifacts` after the loop: every failure gives the key up. */
    method ApplyAndCommit(key: Key, artifact: Artifact, chain: seq<Digest>) returns (err: Error)
      requires Valid() && chain != [] && Over(layers, chain) && artifact.blob.digest == Last(chain)
      requires key in own && Snapshots.Holds(h, state, key, chain, false) && Doing(client, P.Applying(key), chain)
      modifies this`state, this`applies, this`own, this`leaked, this`created, this`steps, this`client, this`turns
      ensures Valid() && Grown() && own == old(own) - {key}
      ensures old(turns) <= turns && client == Returned(old(client), err)
      ensures old(leaked) <= leaked && (calm ==> leaked == old(leaked))
      ensures leased && (err.None? || (safe && err == Some(AlreadyExists))) ==> ChainID(h, chain) in state.committed
      ensures created == old(created) + if err.None? then [ChainID(h, chain)] else []
      ensures calm && ChainID(h, chain) !in old(state.committed) ==>
                && err.None?
                && state == State(old(state.committed)[ChainID(h, chain) := Snapshot(ChainID(h, Front(chain)), chain)],
                                  old(state.active) - {key})
      ensures applies == old(applies) + [artifact.blob]
    {
      hide CollisionFree, PrefixClosed, AllCourteous, ChainID, Plays, P.Advance, P.Return, P.Conclude, Snapshots.Holds;
      hide Returned, Moved, Doing;
      err := ApplyLayer(key, artifact, chain);
      if err.Some? {
        return;
      }
      err := CommitLayer(key, chain);
    }

    /** Apply and the check of the digest it reports. */
    method ApplyLayer(key: Key, artifact: Artifact, chain: seq<Digest>) returns (err: Error)
      requires Valid() && chain != [] && Over(layers, chain) && artifact.blob.digest == Last(chain)
      requires key in own && Snapshots.Holds(h, state, key, chain, false) && Doing(client, P.Applying(key), chain)
      modifies this`state, this`applies, this`own, this`leaked, this`steps, this`client, this`turns
      ensures Valid() && Grown() && old(turns) <= turns
      ensures old(leaked) <= leaked && (calm ==> leaked == old(leaked))
      ensures safe ==> err != Some(AlreadyExists)
      ensures applies == old(applies) + [artifact.blob]
      ensures err.None? ==>
                && own == old(own) && Snapshots.Holds(h, state, key, chain, true)
                && Doing(client, P.Committing(key), chain) && client == Moved(old(client), P.Committing(key))
                && forall e: Error :: Returned(client, e) == Returned(old(client), e)
      ensures err.Some? ==> own == old(own) - {key} && client == Returned(old(client), err)
      ensures calm ==>
                && err.None?
                && state == old(state).(active := old(state.active)[key := state.active[key]])
    {
      hide CollisionFree, PrefixClosed, AllCourteous, ChainID, Plays, P.Advance, P.Return, P.Conclude, Returned;
      var diff;
      ghost var c := client;
      Yield();
      diff, err := Apply(key, artifact.blob, chain);
      if err.None? && diff != artifact.blob.digest {
        err := Some(Other);
      }
      if err.Some? {
        MovedReturns(c, client.phase.pc, err);
        Cleanup(key, err.value, chain);
        return;
      }
      forall e: Error ensures Returned(client, e) == Returned(c, e) {
        MovedReturns(c, P.Committing(key), e);
      }
    }

    method CommitLayer(key: Key, chain: seq<Digest>) returns (err: Error)
      requires Valid() && chain != [] && Over(layers, chain)
      requires key in own && Snapshots.Holds(h, state, key, chain, true) && Doing(client, P.Committing(key), chain)
      modifies this`state, this`own, this`leaked, this`created, this`steps, this`client, this`turns
      ensures Valid() && Grown() && old(turns) <= turns && own == old(own) - {key}
      ensures client == Returned(old(client), err)
      ensures old(leaked) <= leaked && (calm ==> leaked == old(leaked))
      ensures leased && (err.None? || err == Some(AlreadyExists)) ==> ChainID(h, chain) in state.committed
      ensures created == old(created) + if err.None? then [ChainID(h, chain)] else []
      ensures calm && ChainID(h, chain) !in old(state.committed) ==>
                && err.None?
                && state == State(old(state.committed)[ChainID(h, chain) := Snapshot(ChainID(h, Front(chain)), chain)],
                                  old(state.active) - {key})
    {
      hide CollisionFree, PrefixClosed, AllCourteous, ChainID, Plays, P.Advance, P.Return, P.Conclude, Returned;
      ghost var c := client;
      Yield();
      err := Commit(ChainID(h, chain), key, chain);
      if err.Some? {
        MovedReturns(c, P.Cleaning(key, err.value), err);
        Cleanup(key, err.value, chain);
      }
    }

    /** The deferred removal of the extraction key after a failure. */
    method Cleanup(key: Key, ghost cause: Class, ghost chain: seq<Digest>)
      requires Valid() && key in own && chain != [] && Doing(client, P.Cleaning(key, cause), chain)
      modifies this`state, this`own, this`leaked, this`steps, this`client, this`turns
      ensures Valid() && Grown() && own == old(own) - {key}
      ensures old(turns) <= turns && client == Returned(old(client), Some(cause))
      ensures old(leaked) <= leaked && (calm ==> leaked == old(leaked))
    {
      hide Plays, P.Advance, P.Return, P.Conclude;
      Yield();
      Remove(key, cause, chain);
    }

    /** Where the parent of the chain is missing there is something to complete, and otherwise nothing. */
    lemma Below(chain: seq<Digest>, blobs: seq<Descriptor>)
      requires Valid() && chain != [] && Over(layers, chain)
      ensures !ParentThere(state, ChainID(h, Front(chain))) ==> Front(chain) != []
      ensures ParentThere(state, ChainID(h, Front(chain))) ==> ParentDone(chain, blobs, state, applies)
    {
      hide PrefixClosed, AllCourteous, ChainID, Complete, Missing, Plays;
      if ParentThere(state, ChainID(h, Front(chain))) {
        NothingBelow(h, layers, state, chain);
      } else {
        SomethingBelow(h, layers, state, chain);
      }
    }

    /** What lies below the last layer of the chain has been completed, from the given state on. */
    ghost predicate ParentDone(chain: seq<Digest>, blobs: seq<Descriptor>, s: State, a: seq<Descriptor>)
      requires chain != []
      reads this
    {
      && ParentThere(state, ChainID(h, Front(chain))) && state.active == s.active
      && state.committed == Complete(h, s.committed, Front(chain))
      && applies == a + Tail(blobs, |Missing(h, s.committed, Front(chain))|)
    }

    /** One try of the retry loop: another key, and Prepare. */
    method TryKey(chain: seq<Digest>, parent: Digest, ghost c: P.Client, ghost n: nat) returns (key: Key, err: Error)
      requires Valid() && chain != [] && Over(layers, chain) && parent == ChainID(h, Front(chain))
      requires Doing(c, P.Preparing, chain) && client == Pending(c, n)
      modifies this`state, this`own, this`steps, this`client, this`turns, this`patience
      ensures Valid() && Grown() && old(turns) <= turns && client == AfterPrepare(Pending(c, n), key, err)
      ensures own == old(own) + (if err.None? then {key} else {})
      ensures err.None? ==> key !in old(own) && Snapshots.Holds(h, state, key, chain, false)
      ensures patience <= old(patience) && (err == Some(AlreadyExists) ==> patience < old(patience))
      ensures calm && err.None? ==>
                && ParentThere(old(state), parent) && key !in old(state.active)
                && state == old(state).(active := old(state.active)[key := state.active[key]])
      ensures calm && err.Some? ==> state == old(state)
      ensures calm && err.Some? && err != Some(AlreadyExists) ==> err == Some(NotFound) && !ParentThere(state, parent)
    {
      hide CollisionFree, PrefixClosed, AllCourteous, ChainID, Plays, P.Advance, P.Return, P.Conclude, AfterPrepare;
      hide Snapshots.Holds;
      TryTurn(c, chain, n, 0, None);
      Yield();
      key := UniquePart();
      err := Prepare(key, parent, chain);
    }

    /** The branch of the retry loop for a missing parent: its artifacts are applied first. */
    method ApplyParent(artifacts: seq<Artifact>, chain: seq<Digest>, ghost c: P.Client, ghost key: Key)
      returns (err: Error)
      requires Valid() && chain != [] && Over(layers, chain)
      requires 1 < |artifacts| <= |chain| && Digests(artifacts) == chain[|chain| - |artifacts|..]
      requires Doing(c, P.Preparing, chain) && client == AfterPrepare(Pending(c, |artifacts|), key, Some(NotFound))
      modifies this
      ensures Valid() && Grown() && GaveUpKeys() && patience <= old(patience)
      ensures start == old(start) && old(turns) <= turns
      ensures client == if err.None? || err.value == AlreadyExists then Pending(c, 0) else Returned(c, err)
      ensures
        var front := Front(chain);
        calm && !ParentThere(old(state), ChainID(h, front)) && |artifacts| == |chain| ==>
          err.None? && ParentDone(chain, Front(Blobs(artifacts)), old(state), old(applies))
      ensures Given(Blobs(artifacts))
      decreases |chain|, 0
    {
      hide CollisionFree, PrefixClosed, AllCourteous, ChainID, Complete, Missing, Digests, Snapshots.Holds;
      hide Plays, P.Advance, P.Return, P.Conclude, Pending, Returned, AfterPrepare;
      FrontArtifacts(artifacts, chain);
      TryTurn(c, chain, |artifacts|, key, Some(NotFound));
      ParentTurn(c, chain, |artifacts|, key, None);
      if !ParentThere(state, ChainID(h, Front(chain))) {
        SomethingBelow(h, layers, state, chain);
      }
      TailFront(artifacts, 0);
      err := ApplyArtifacts(artifacts[..|artifacts| - 1], chain[..|chain| - 1]);
      ParentTurn(c, chain, |artifacts|, key, err);
    }

    /** The retry loop of `applyArtifacts`: another key on a collision, the parent first when it is missing. */
    method PrepareOverParent(artifacts: seq<Artifact>, chain: seq<Digest>) returns (key: Key, err: Error)
      requires Valid() && chain != [] && Over(layers, chain)
      requires 0 < |artifacts| <= |chain| && Digests(artifacts) == chain[|chain| - |artifacts|..]
      requires Doing(client, P.Preparing, chain) && Last(client.phase.stack).pending == |artifacts|
      modifies this
      ensures Valid() && Grown()
      ensures start == old(start) && old(turns) <= turns
      ensures err.None? ==>
                && Doing(client, P.Applying(key), chain)
                && client == Pending(Moved(old(client), P.Applying(key)), Last(client.phase.stack).pending)
      ensures err.Some? ==> client == Returned(old(client), err)
      ensures old(leaked) <= leaked && (calm ==> leaked == old(leaked))
      ensures own == old(own) + (if err.None? then {key} else {})
      ensures err.None? ==> key !in old(own) && Snapshots.Holds(h, state, key, chain, false)
      ensures err != Some(AlreadyExists)
      ensures |artifacts| == 1 ==> created == old(created)
      ensures patience <= old(patience)
      ensures calm && old(Ready(artifacts, chain)) ==>
                && err.None? && key !in old(state.active)
                && state.active == old(state.active)[key := state.active[key]]
                && state.committed == Complete(h, old(state.committed), Front(chain))
                && applies
                == old(applies) + Tail(Front(Blobs(artifacts)), |Missing(h, old(state.committed), Front(chain))|)
      ensures Given(Blobs(artifacts))
      decreases |chain|, 1
    {
      hide CollisionFree, PrefixClosed, AllCourteous, ChainID, Complete, Missing, Snapshots.Holds, Digests;
      hide Plays, P.Advance, P.Return, P.Conclude, Moved, Pending, Returned, AfterPrepare, Doing;
      hide ParentThere, Over, this.Valid;
      ghost var c := client;
      PendingHere(c, P.Preparing, chain);
      var parent := ChainID(h, chain[..|chain| - 1]);
      var pending := artifacts;
      ghost var s0, a0 := state, applies;
      ghost var promised := calm && Ready(artifacts, chain);
      Below(chain, Front(Blobs(artifacts)));
      while true
        invariant pending == artifacts || pending == []
        invariant start == old(start) && old(turns) <= turns
        invariant client == Pending(c, |pending|)
        invariant Valid() && Grown() && GaveUpKeys() && patience <= old(patience)
        invariant |artifacts| == 1 ==> created == old(created)
        invariant promised && pending != [] ==> state == s0 && applies == a0
        invariant promised && pending == [] ==> ParentDone(chain, Front(Blobs(artifacts)), s0, a0)
        invariant Given(Blobs(artifacts))
        decreases |pending|, patience
      {
        key, err := TryKey(chain, parent, c, |pending|);
        TryTurn(c, chain, |pending|, key, err);
        if err.None? {
          return;
        }
        if err == Some(NotFound) && |pending| > 1 {
          var inner := ApplyParent(pending, chain, c, key);
          if inner.Some? && inner != Some(AlreadyExists) {
            return key, inner;
          }
          pending := [];
          continue;
        } else if err == Some(AlreadyExists) {
          continue;
        }
        return;
      }
    }

    /** Every beginning of the chain is committed. */
    ghost predicate AllThere(chain: seq<Digest>)
      reads this
    {
      forall n | 0 < n <= |chain| :: NameOf(h, chain, n) in state.committed
    }

    lemma TopMeansAll(chain: seq<Digest>)
      requires Valid() && Over(layers, chain) && (chain != [] ==> ChainID(h, chain) in state.committed)
      ensures AllThere(chain)
    {
      if chain != [] {
        CommittedChain(h, layers, state, chain);
      }
    }

    /** `ApplyArtifactsWithOpts`: the batch form. `asked` is what Stat answered: only that can make the call
        fail with AlreadyExists. */
    method ApplyArtifactsWithOpts(artifacts: seq<Artifact>) returns (id: Digest, err: Error, ghost asked: Error)
      requires Valid() && artifacts != [] && Over(layers, Digests(artifacts))
      modifies this
      ensures Valid() && Grown() && GaveUpKeys()
      ensures start == P.Client(P.Batch, Digests(artifacts), [], P.Asking) && client.phase == P.Finished(err)
      ensures err.None? ==> id == ChainID(h, Digests(artifacts))
      ensures err == Some(AlreadyExists) ==> asked == err
      ensures leased && safe && err.None? ==> AllThere(Digests(artifacts))
      ensures calm ==> err.None? && Completed(Digests(artifacts), Blobs(artifacts))
      ensures Given(Blobs(artifacts))
    {
      hide CollisionFree, PrefixClosed, AllCourteous, ChainID, Complete, Missing;
      hide Plays, P.Advance, P.Return, P.Conclude, AfterStat, Returned, Doing;
      var chain: seq<Digest> := [];
      for i := 0 to |artifacts|
        invariant chain == Digests(artifacts)[..i]
      {
        chain := chain + [artifacts[i].blob.digest];
      }
      assert chain == Digests(artifacts);
      assert chain[0..] == chain && chain[..|chain|] == chain;
      ghost var c := P.Client(P.Batch, chain, [], P.Asking);
      Begin(c);
      id := ChainID(h, chain);
      Yield();
      if id in state.committed {
        CompleteThere(h, state, chain);
      }
      err := Ask(id);
      asked := err;
      StatAnswers(c, err);
      BatchConcludes(c, false);
      if err.Some? {
        if err != Some(NotFound) {
          return "", err, asked;
        }
        CallReturns(c, chain, None);
        err := ApplyArtifacts(artifacts, chain);
        CallReturns(c, chain, err);
        BatchConcludes(c, err.None?);
        if err.Some? && err != Some(AlreadyExists) {
          return "", err, asked;
        }
      }
      if leased && safe {
        TopMeansAll(chain);
      }
      return id, None, asked;
    }

    /** `ApplyArtifactWithOpts`: one layer on top of a chain; `applied` tells whether this call made it. A race
        that is lost is no error: AlreadyExists comes out only when Stat answered it. */
    method ApplyArtifactWithOpts(artifact: Artifact, chain: seq<Digest>)
      returns (applied: bool, err: Error, ghost asked: Error)
      requires Valid() && Over(layers, chain + [artifact.blob.digest])
      modifies this
      ensures Valid() && Grown() && GaveUpKeys()
      ensures
        var target := chain + [artifact.blob.digest];
        var c := if old(Due(client, target)) then old(client) else ForOne(target);
        && (old(Due(client, target)) ==> start == old(start) && old(turns) <= turns)
        && client == if err.None? then P.Conclude(c, applied) else c.(phase := P.Finished(err))
      ensures leased && safe && err.None? ==> ChainID(h, chain + [artifact.blob.digest]) in state.committed
      ensures created == old(created) + if applied then [ChainID(h, chain + [artifact.blob.digest])] else []
      ensures err.Some? ==> !applied
      ensures err == Some(AlreadyExists) ==> asked == err
      ensures calm && ParentThere(old(state), ChainID(h, chain)) ==>
                err.None? && Completed(chain + [artifact.blob.digest], [artifact.blob])
      ensures Given([artifact.blob])
      ensures leased && ChainID(h, chain + [artifact.blob.digest]) in old(state.committed) ==>
                applies == old(applies) && !applied
    {
      hide CollisionFree, PrefixClosed, AllCourteous, ChainID, Complete, Missing;
      hide Plays, P.Advance, P.Return, P.Conclude, AfterStat, Returned, Doing;
      hide Over, Within, this.Valid;
      var target := chain + [artifact.blob.digest];
      assert Front(target) == chain;
      assert Digests([artifact]) == target[|target| - 1..];
      assert Blobs([artifact]) == [artifact.blob];
      WithinNone(applies, [artifact.blob]);
      ghost var c := client;
      if !Due(client, target) {
        c := ForOne(target);
        Begin(c);
      }
      assert target[..|target|] == target && c.layers[..|target|] == target;
      var chainID := ChainID(h, target);
      applied := false;
      Yield();
      if chainID in state.committed {
        CompleteThere(h, state, target);
      }
      err := Ask(chainID);
      asked := err;
      StatAnswers(c, err);
      if err.Some? {
        if err != Some(NotFound) {
          return false, err, asked;
        }
        CallReturns(c, target, None);
        err := ApplyArtifacts([artifact], target);
        CallReturns(c, target, err);
        if err.Some? {
          if err != Some(AlreadyExists) {
            return false, err, asked;
          }
        } else {
          applied := true;
        }
      }
      return applied, None, asked;
    }

    lemma Sound()
      requires Valid()
      ensures CollisionFree(h, layers) && PrefixClosed(h, layers, state)
    {
    }

    /** The digests of a manifest's layers, as `RootFS` lists them. */
    method RootFS(manifest: seq<Descriptor>) returns (digests: seq<Digest>)
      ensures digests == LayerDigests(manifest)
    {
      digests := [];
      for i := 0 to |manifest|
        invariant digests == LayerDigests(manifest)[..i]
      {
        digests := digests + [manifest[i].digest];
      }
    }

    method GetArtifacts(manifest: seq<Descriptor>) returns (artifacts: seq<Artifact>)
      ensures Blobs(artifacts) == manifest && Digests(artifacts) == LayerDigests(manifest)
    {
      artifacts := [];
      for i := 0 to |manifest|
        invariant |artifacts| == i && forall j | 0 <= j < i :: artifacts[j].blob == manifest[j]
      {
        artifacts := artifacts + [Artifact(manifest[i])];
      }
    }

    /** The loop of `Unpack`; recording a label on the content store can fail too. */
    method Unpack(manifest: seq<Descriptor>) returns (err: Error)
      requires Valid() && Over(layers, LayerDigests(manifest))
      modifies this
      ensures Valid() && Grown() && GaveUpKeys()
      ensures P.Starts(start) && start.mode == P.Loop && start.layers == client.layers == LayerDigests(manifest)
      ensures err.None? ==> client.phase == P.Finished(None) && |client.reports| == |LayerDigests(manifest)|
      ensures leased && safe && err.None? ==> AllThere(LayerDigests(manifest))
      ensures calm ==> err.None? && Completed(LayerDigests(manifest), manifest)
      ensures Given(manifest)
      ensures leased && LayerDigests(manifest) != [] && ChainID(h, LayerDigests(manifest)) in old(state.committed) ==>
                applies == old(applies) && created == old(created)
    {
      hide CollisionFree, PrefixClosed, AllCourteous, ChainID, Complete, Missing;
      hide Plays, P.Advance, P.Return, P.Conclude, AfterStat, Returned, Doing, Tail;
      hide P.Goal, P.Chain, ForOne, Depth, Reached, Within, Over, Blobs, Digests, LayerDigests, this.Valid;
      var artifacts := GetArtifacts(manifest);
      BlobsAt(artifacts);
      ghost var all := LayerDigests(manifest);
      ghost var s0, a0, c0 := state, applies, created;
      var chain: seq<Digest> := [];
      if all != [] && ChainID(h, all) in state.committed {
        TopMeansAll(all);
      }
      Sound();
      Begin(P.Client(P.Loop, all, [], if all == [] then P.Finished(None) else P.Asking));
      ReachedNone(h, manifest, state, applies);
      WithinNone(applies, manifest);
      for i := 0 to |artifacts|
        invariant chain == all[..i]
        invariant Valid() && Grown() && GaveUpKeys()
        invariant P.Starts(start) && start.mode == client.mode == P.Loop && start.layers == client.layers == all
        invariant |client.reports| == i && client.phase == if i < |all| then P.Asking else P.Finished(None)
        invariant leased && safe && i > 0 ==> NameOf(h, all, i) in state.committed
        invariant calm ==> Reached(h, manifest, i, s0, a0, state, applies)
        invariant Given(manifest)
        invariant leased && all != [] && ChainID(h, all) in s0.committed ==> applies == a0 && created == c0
      {
        LayersTo(layers, manifest, i);
        if calm {
          ReachedParent(h, layers, manifest, i, s0, a0, state, applies);
        }
        assert leased && all != [] && ChainID(h, all) in s0.committed ==> NameOf(h, all, i + 1) in state.committed;
        var unpacked;
        ghost var asked;
        LoopConcludes(client, true);
        LoopConcludes(client, false);
        ghost var s1, a1 := state, applies;
        unpacked, err, asked := ApplyArtifactWithOpts(artifacts[i], chain);
        WithinNext(a0, a1, applies, manifest, [artifacts[i].blob]);
        if err.Some? {
          return;
        }
        if unpacked {
          var failed := Fault(None);
          if failed.Some? {
            return failed;
          }
        }
        if calm {
          ReachedNext(h, layers, manifest, i, s0, a0, s1, a1, state, applies);
        }
        chain := chain + [artifacts[i].blob.digest];
      }
      assert all[..|artifacts|] == all;
      if calm {
        ReachedAll(h, manifest, s0, a0, state, applies);
      }
      err := Fault(None);
      if leased && safe {
        TopMeansAll(all);
      }
    }

    /** `IsUnpacked`: whether the chain of all layers is committed. What Stat answers comes out, but for NotFound. */
    method IsUnpacked(manifest: seq<Descriptor>) returns (r: bool, err: Error, ghost asked: Error)
      requires Valid()
      ensures err.None? ==> r == (ChainID(h, LayerDigests(manifest)) in state.committed)
      ensures r == asked.None? && err == if asked == Some(NotFound) then None else asked
      ensures asked == Some(NotFound) ==> ChainID(h, LayerDigests(manifest)) !in state.committed
      ensures calm ==> err.None?
    {
      var diffs := RootFS(manifest);
      ghost var fault;
      err, fault := Stat(ChainID(h, diffs));
      asked := err;
      if err == Some(NotFound) {
        return false, None, asked;
      }
      return err.None?, err, asked;
    }
  }

  /** A chain already there needs nothing. */
  lemma CompleteThere(h: Hash, s: State, chain: seq<Digest>)
    requires ChainID(h, chain) in s.committed
    ensures Complete(h, s.committed, chain) == s.committed && Missing(h, s.committed, chain) == []
  {
  }

  /** With the parent there, nothing below is missing. */
  lemma NothingBelow(h: Hash, layers: iset<Digest>, s: State, chain: seq<Digest>)
    requires CollisionFree(h, layers) && Over(layers, chain) && chain != []
    requires ParentThere(s, ChainID(h, Front(chain)))
    ensures Complete(h, s.committed, Front(chain)) == s.committed
    ensures Missing(h, s.committed, Front(chain)) == []
  {
    ChainIDEmpty(h, layers, Front(chain));
  }

  /** Without it there is a chain below to complete, and completing it puts the parent there. */
  lemma SomethingBelow(h: Hash, layers: iset<Digest>, s: State, chain: seq<Digest>)
    requires CollisionFree(h, layers) && Over(layers, chain) && chain != []
    requires !ParentThere(s, ChainID(h, Front(chain)))
    ensures Front(chain) != [] && ChainID(h, Front(chain)) !in s.committed
    ensures ChainID(h, Front(chain)) in Complete(h, s.committed, Front(chain))
  {
    ChainIDEmpty(h, layers, Front(chain));
  }

  /** Completing a missing chain is completing what lies below and then adding its last layer. */
  lemma CompleteLast(h: Hash, layers: iset<Digest>, s: State, chain: seq<Digest>)
    requires CollisionFree(h, layers) && Over(layers, chain) && chain != [] && ChainID(h, chain) !in s.committed
    ensures
      var below := Complete(h, s.committed, Front(chain));
      && ChainID(h, chain) !in below
      && Complete(h, s.committed, chain) == below[ChainID(h, chain) := Snapshot(ChainID(h, Front(chain)), chain)]
      && Missing(h, s.committed, chain) == Missing(h, s.committed, Front(chain)) + [Last(chain)]
  {
    StillMissing(h, layers, s.committed, chain);
  }

  lemma FrontArtifacts(artifacts: seq<Artifact>, chain: seq<Digest>)
    requires 0 < |artifacts| <= |chain| && Digests(artifacts) == chain[|chain| - |artifacts|..]
    ensures artifacts[|artifacts| - 1].blob.digest == Last(chain)
    ensures |artifacts| > 1 ==>
              Digests(artifacts[..|artifacts| - 1]) == Front(chain)[|Front(chain)| - (|artifacts| - 1)..]
  {
    assert Digests(artifacts)[|artifacts| - 1] == Last(chain);
    if |artifacts| > 1 {
      var fewer := Digests(artifacts[..|artifacts| - 1]);
      assert fewer == Digests(artifacts)[..|artifacts| - 1];
      assert fewer == chain[|chain| - |artifacts|..|chain| - 1];
    }
  }

  /** Nothing but these descriptors has been added. */
  ghost predicate Within(before: seq<Descriptor>, after: seq<Descriptor>, blobs: seq<Descriptor>) {
    before <= after && forall k | |before| <= k < |after| :: after[k] in blobs
  }

  lemma WithinNone(before: seq<Descriptor>, blobs: seq<Descriptor>)
    ensures Within(before, before, blobs)
  {
  }

  lemma WithinNext(
    before: seq<Descriptor>, middle: seq<Descriptor>, after: seq<Descriptor>, blobs: seq<Descriptor>,
    more: seq<Descriptor>)
    requires Within(before, middle, blobs) && Within(middle, after, more) && forall d | d in more :: d in blobs
    ensures Within(before, after, blobs)
  {
  }

  lemma TailFront(artifacts: seq<Artifact>, n: nat)
    requires artifacts != []
    ensures Tail(Blobs(artifacts), n + 1) == Tail(Front(Blobs(artifacts)), n) + [Last(artifacts).blob]
    ensures Blobs(Front(artifacts)) == Front(Blobs(artifacts))
    ensures Last(artifacts).blob in Blobs(artifacts)
    ensures forall d | d in Blobs(Front(artifacts)) :: d in Blobs(artifacts)
  {
    var blobs := Blobs(artifacts);
    assert blobs == Front(blobs) + [Last(blobs)];
    assert Last(blobs) == Last(artifacts).blob;
  }

  /** No more is missing of a chain than its layers. */
  lemma {:induction false} MissingFits(h: Hash, committed: map<Digest, Snapshot>, chain: seq<Digest>)
    ensures |Missing(h, committed, chain)| <= |chain|
  {
    if chain != [] {
      MissingFits(h, committed, Front(chain));
    }
  }

  lemma CompleteNone(h: Hash, layers: iset<Digest>, s: State)
    ensures Complete(h, s.committed, []) == s.committed && Missing(h, s.committed, []) == []
  {
  }

  /** Completing a longer beginning of a chain goes on from completing a shorter one. */
  lemma CompleteNext(h: Hash, layers: iset<Digest>, s: State, chain: seq<Digest>, i: nat)
    requires CollisionFree(h, layers) && PrefixClosed(h, layers, s) && Over(layers, chain) && i < |chain|
    ensures
      var now := s.(committed := Complete(h, s.committed, chain[..i]));
      && ParentThere(now, ChainID(h, chain[..i]))
      && Complete(h, now.committed, chain[..i + 1]) == Complete(h, s.committed, chain[..i + 1])
      && Missing(h, s.committed, chain[..i + 1])
      == Missing(h, s.committed, chain[..i]) + Missing(h, now.committed, chain[..i + 1])
      && |Missing(h, now.committed, chain[..i + 1])| <= 1
      && (Missing(h, now.committed, chain[..i + 1]) == [] ==> Missing(h, s.committed, chain[..i]) == [])
  {
    var next, below := chain[..i + 1], chain[..i];
    assert Front(next) == below;
    if ChainID(h, next) in s.committed {
      CommittedChain(h, layers, s, next);
      assert next[..i] == below;
    } else {
      CompleteLast(h, layers, s, next);
      StillMissing(h, layers, s.committed, next);
    }
  }

  /** The same for the descriptors of the missing layers. */
  lemma TailNext(h: Hash, layers: iset<Digest>, s: State, manifest: seq<Descriptor>, i: nat)
    requires CollisionFree(h, layers) && PrefixClosed(h, layers, s) && Over(layers, LayerDigests(manifest))
    requires i < |manifest|
    ensures
      var all := LayerDigests(manifest);
      var now := s.(committed := Complete(h, s.committed, all[..i]));
      Tail(manifest[..i + 1], |Missing(h, s.committed, all[..i + 1])|)
      == Tail(manifest[..i], |Missing(h, s.committed, all[..i])|)
         + Tail([manifest[i]], |Missing(h, now.committed, all[..i + 1])|)
  {
    hide CollisionFree, PrefixClosed, ChainID, Missing, Complete;
    var all := LayerDigests(manifest);
    CompleteNext(h, layers, s, all, i);
  }

  lemma BlobsAt(artifacts: seq<Artifact>)
    ensures |Blobs(artifacts)| == |artifacts|
    ensures forall i | 0 <= i < |artifacts| :: artifacts[i].blob == Blobs(artifacts)[i]
    ensures |LayerDigests(Blobs(artifacts))| == |artifacts|
  {
  }

  lemma LayersTo(layers: iset<Digest>, manifest: seq<Descriptor>, i: nat)
    requires Over(layers, LayerDigests(manifest)) && i < |manifest|
    ensures
      var all := LayerDigests(manifest);
      && |all| == |manifest| && all[..i + 1] == all[..i] + [manifest[i].digest]
      && Over(layers, all[..i] + [manifest[i].digest])
  {
  }

  /** From the first state to the second, the first i layers have been completed. */
  ghost predicate Reached(
    h: Hash, manifest: seq<Descriptor>, i: nat, s: State, a: seq<Descriptor>, s': State, a': seq<Descriptor>)
    requires i <= |manifest|
  {
    var chain := LayerDigests(manifest)[..i];
    && s' == s.(committed := Complete(h, s.committed, chain))
    && a' == a + Tail(manifest[..i], |Missing(h, s.committed, chain)|)
  }

  lemma ReachedNone(h: Hash, manifest: seq<Descriptor>, s: State, a: seq<Descriptor>)
    ensures Reached(h, manifest, 0, s, a, s, a)
  {
  }

  lemma ReachedNext(
    h: Hash, layers: iset<Digest>, manifest: seq<Descriptor>, i: nat, s: State, a: seq<Descriptor>, s1: State,
    a1: seq<Descriptor>, s': State, a': seq<Descriptor>)
    requires CollisionFree(h, layers) && PrefixClosed(h, layers, s) && Over(layers, LayerDigests(manifest))
    requires i < |manifest| && Reached(h, manifest, i, s, a, s1, a1)
    requires
      var next := LayerDigests(manifest)[..i + 1];
      && s' == s1.(committed := Complete(h, s1.committed, next))
      && a' == a1 + Tail([manifest[i]], |Missing(h, s1.committed, next)|)
    ensures Reached(h, manifest, i + 1, s, a, s', a')
  {
    hide CollisionFree, PrefixClosed, ChainID, Complete, Missing, Tail;
    CompleteNext(h, layers, s, LayerDigests(manifest), i);
    TailNext(h, layers, s, manifest, i);
  }

  lemma ReachedAll(
    h: Hash, manifest: seq<Descriptor>, s: State, a: seq<Descriptor>, s': State, a': seq<Descriptor>)
    requires Reached(h, manifest, |manifest|, s, a, s', a')
    ensures
      var chain := LayerDigests(manifest);
      && s' == s.(committed := Complete(h, s.committed, chain))
      && a' == a + Tail(manifest, |Missing(h, s.committed, chain)|)
  {
    assert LayerDigests(manifest)[..|manifest|] == LayerDigests(manifest) && manifest[..|manifest|] == manifest;
  }

  /** The parent of the next layer is there. */
  lemma ReachedParent(
    h: Hash, layers: iset<Digest>, manifest: seq<Descriptor>, i: nat, s: State, a: seq<Descriptor>, s': State,
    a': seq<Descriptor>)
    requires CollisionFree(h, layers) && PrefixClosed(h, layers, s) && Over(layers, LayerDigests(manifest))
    requires i < |manifest| && Reached(h, manifest, i, s, a, s', a')
    ensures ParentThere(s', ChainID(h, LayerDigests(manifest)[..i]))
  {
    hide CollisionFree, PrefixClosed, ChainID, Complete, Missing, Tail;
    CompleteNext(h, layers, s, LayerDigests(manifest), i);
  }

  /** A successful `Unpack` under a lease is what `IsUnpacked` looks for, unless there is no layer at all: the
      empty chain has no snapshot. */
  method UnpackThenAsk(s: Session, manifest: seq<Descriptor>) returns (unpacked: Error, r: bool, asked: Error)
    requires s.Valid() && Over(s.layers, LayerDigests(manifest)) && s.leased && s.safe
    modifies s
    ensures s.Valid()
    ensures unpacked.None? && asked.None? ==> (r <==> manifest != [])
  {
    hide CollisionFree, PrefixClosed, AllCourteous, ChainID, Complete, Missing;
    unpacked := s.Unpack(manifest);
    ghost var all := LayerDigests(manifest);
    if all != [] && unpacked.None? {
      assert NameOf(s.h, all, |all|) in s.state.committed;
      assert all[..|all|] == all;
    }
    s.Yield();
    ghost var stat;
    r, asked, stat := s.IsUnpacked(manifest);
    EmptyHasNoSnapshot(s.h, s.layers, s.state);
  }

  lemma EmptyHasNoSnapshot(h: Hash, layers: iset<Digest>, s: State)
    requires CollisionFree(h, layers) && PrefixClosed(h, layers, s)
    ensures ChainID(h, []) !in s.committed
  {
    if "" in s.committed {
      ChainIDEmpty(h, layers, s.committed[""].content);
    }
  }

  /** An image found unpacked is not unpacked again: `Unpack` calls Apply for no layer and commits nothing. */
  method AskThenUnpack(s: Session, manifest: seq<Descriptor>) returns (r: bool, asked: Error, unpacked: Error)
    requires s.Valid() && Over(s.layers, LayerDigests(manifest)) && s.leased
    modifies s
    ensures s.Valid()
    ensures asked.None? && r ==> s.applies == old(s.applies) && s.created == old(s.created)
    ensures asked.None? && r && s.calm ==> s.state == old(s.state)
  {
    hide CollisionFree, PrefixClosed, AllCourteous, ChainID, Missing;
    ghost var stat;
    r, asked, stat := s.IsUnpacked(manifest);
    EmptyHasNoSnapshot(s.h, s.layers, s.state);
    s.Yield();
    unpacked := s.Unpack(manifest);
  }

  /** The two drivers agree: from the same committed snapshots, with nothing failing, both end with the same
      ones, leave the active snapshots alone, and apply the same layers in the same order: those above the
      longest committed beginning, each once. */
  method DriversAgree(a: Session, b: Session, manifest: seq<Descriptor>)
    requires a != b && a.Valid() && b.Valid() && a.calm && b.calm && a.h == b.h
    requires a.state.committed == b.state.committed && a.applies == b.applies == []
    requires manifest != [] && Over(a.layers, LayerDigests(manifest)) && Over(b.layers, LayerDigests(manifest))
    modifies a, b
    ensures a.state.committed == b.state.committed && a.applies == b.applies
    ensures a.state.active == old(a.state.active) && b.state.active == old(b.state.active)
    ensures a.applies == manifest[Depth(a.h, old(a.state.committed), LayerDigests(manifest))..]
    ensures a.AllThere(LayerDigests(manifest))
  {
    hide CollisionFree, PrefixClosed, AllCourteous, ChainID, Complete, Missing, Depth;
    ghost var all := LayerDigests(manifest);
    assert all[..|all|] == all;
    MissingExactly(a.h, a.layers, a.state, all, |all|);
    ghost var before := a.state;
    var artifacts := a.GetArtifacts(manifest);
    var _, _, _ := a.ApplyArtifactsWithOpts(artifacts);
    var _ := b.Unpack(manifest);
    CompleteExactly(a.h, a.layers, before.committed, all, |all|);
    forall n | 0 < n <= |all| ensures NameOf(a.h, all, n) in a.state.committed {
      if n <= Depth(a.h, before.committed, all) {
        assert NameOf(a.h, all, n) in before.committed;
      } else {
        assert AddedAs(a.h, a.state.committed, all, n);
      }
    }
  }

  method FreshKey(used: set<Key>) returns (k: Key)
    ensures k !in used
  {
    k := 0;
    var rest := used;
    while rest != {}
      invariant rest <= used
      invariant forall u | u in used && u !in rest :: u < k
    {
      var u :| u in rest;
      rest := rest - {u};
      if k <= u {
        k := u + 1;
      }
    }
  }
}
