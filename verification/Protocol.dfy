/** Any number of clients unpacking against one snapshotter, as a machine whose steps are the snapshotter
    calls of the two drivers. A run is a list of events; every interleaving is one. */
module Protocol {
  import opened GoStrings
  import opened ChainIds
  import opened Snapshots

  /** Batch is one `ApplyArtifactsWithOpts` call; Loop is the loop of `Unpack`, one
      `ApplyArtifactWithOpts` call per layer. */
  datatype Mode = Batch | Loop

  /** One activation of `applyArtifacts`: the length of its chain and of its `artifacts`. */
  datatype Frame = Frame(len: nat, pending: nat)

  datatype Pc = Preparing | Applying(key: Key) | Committing(key: Key) | Cleaning(key: Key, cause: Class)

  datatype Phase = Asking | Working(stack: seq<Frame>, pc: Pc) | Finished(err: Option<Class>)

  /** `reports` holds the answers (`applied`) of the calls of a Loop client that have returned without error. */
  datatype Client = Client(mode: Mode, layers: seq<Digest>, reports: seq<bool>, phase: Phase)

  /** What is not determined by the code at one step: the key drawn, a fault of the call, what a failed
      application leaves behind, and whether a removal works. */
  datatype Choice = Choice(key: Key, fault: Option<Class>, debris: seq<Digest>, works: bool)

  type Id = nat

  datatype Event = Act(id: Id, choice: Choice) | Reaped(name: Digest)

  /** A commit that created a snapshot: by which client, in which of its calls. */
  datatype Creation = Creation(name: Digest, id: Id, call: nat)

  datatype World = World(sn: State, clients: map<Id, Client>, log: seq<Creation>, leaked: set<Key>)

  /** A client before its first step. A batch call with no layers has no chain to name: the code indexes
      an empty slice, so batch clients bring at least one layer. */
  predicate Starts(c: Client) {
    && c.reports == []
    && (c.mode == Batch ==> c.layers != [])
    && c.phase == if c.layers == [] then Finished(None) else Asking
  }

  /** How many layers the chain of the current call has. */
  function Goal(c: Client): nat {
    if c.mode == Batch then |c.layers| else |c.reports| + 1
  }

  function Chain(c: Client, n: nat): seq<Digest> {
    if n <= |c.layers| then c.layers[..n] else c.layers
  }

  /** The current call returns without error. */
  function Conclude(c: Client, applied: bool): Client {
    if c.mode == Batch then c.(phase := Finished(None))
    else
      var reports := c.reports + [applied];
      c.(reports := reports, phase := if |reports| >= |c.layers| then Finished(None) else Asking)
  }

  /** The top activation returns: errors other than AlreadyExists end every call below it, the rest resume
      the caller with no artifacts left, or end the driver's call. */
  function Return(c: Client, stack: seq<Frame>, err: Option<Class>): Client
    requires stack != []
  {
    if err.Some? && err.value != AlreadyExists then c.(phase := Finished(err))
    else if |stack| == 1 then Conclude(c, err.None?)
    else
      var below := Front(stack);
      c.(phase := Working(Front(below) + [Last(below).(pending := 0)], Preparing))
  }

  datatype Move = Move(sn: State, client: Client, created: bool, leaks: bool)

  function Advance(h: Hash, sn: State, c: Client, ch: Choice): Move {
    match c.phase
    case Finished(_) => Move(sn, c, false, false)
    case Asking => (
      match Stat(sn, ChainID(h, Chain(c, Goal(c))), ch.fault)
      case None => Move(sn, Conclude(c, false), false, false)
      case Some(NotFound) =>
        var artifacts := if c.mode == Batch then Goal(c) else 1;
        Move(sn, c.(phase := Working([Frame(Goal(c), artifacts)], Preparing)), false, false)
      case err => Move(sn, c.(phase := Finished(err)), false, false))
    case Working(stack, pc) =>
      if stack == [] || Last(stack).len == 0 || Last(stack).len > |c.layers| then Move(sn, c, false, false)
      else
        var top := Last(stack);
        var chain := Chain(c, top.len);
        match pc
        case Preparing => (
          var r := Prepare(sn, ch.key, ChainID(h, Front(chain)), ch.fault);
          match r.err
          case None => Move(r.state, c.(phase := Working(stack, Applying(ch.key))), false, false)
          case Some(AlreadyExists) => Move(sn, c, false, false)
          case Some(cls) =>
            if cls == NotFound && top.pending > 1 then
              Move(sn, c.(phase := Working(stack + [Frame(top.len - 1, top.pending - 1)], Preparing)), false, false)
            else Move(sn, Return(c, stack, Some(cls)), false, false))
        case Applying(key) => (
          var r := Apply(sn, key, Last(chain), ch.fault, ch.debris);
          match r.err
          case None => Move(r.state, c.(phase := Working(stack, Committing(key))), false, false)
          case Some(cls) => Move(r.state, c.(phase := Working(stack, Cleaning(key, cls))), false, false))
        case Committing(key) => (
          var r := Commit(sn, ChainID(h, chain), key, ch.fault);
          match r.err
          case None => Move(r.state, Return(c, stack, None), true, false)
          case Some(cls) => Move(sn, c.(phase := Working(stack, Cleaning(key, cls))), false, false))
        case Cleaning(key, cause) =>
          Move(Remove(sn, key, ch.works), Return(c, stack, Some(cause)), false, !ch.works)
  }

  /** The key a client has prepared and not yet given up. */
  function Held(c: Client): set<Key> {
    if c.phase.Working? && !c.phase.pc.Preparing? then {c.phase.pc.key} else {}
  }

  function Name(h: Hash, c: Client): Digest {
    if c.phase.Working? && c.phase.stack != [] then ChainID(h, Chain(c, Last(c.phase.stack).len)) else ""
  }

  function Step(h: Hash, w: World, e: Event): World {
    match e
    case Reaped(name) => w.(sn := Reap(w.sn, name))
    case Act(id, ch) =>
      if id !in w.clients then w
      else
        var c := w.clients[id];
        var m := Advance(h, w.sn, c, ch);
        World(m.sn,
              w.clients[id := m.client],
              if m.created then w.log + [Creation(Name(h, c), id, |c.reports|)] else w.log,
              if m.leaks then w.leaked + Held(c) else w.leaked)
  }

  function Run(h: Hash, w: World, events: seq<Event>): World {
    if events == [] then w else Step(h, Run(h, w, Front(events)), Last(events))
  }
}
