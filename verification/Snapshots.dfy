/** The snapshotter as both drivers see it: its state, and its calls as atomic steps on that state. A fault
    makes a call fail with the given error class. */
module Snapshots {
  import opened GoStrings
  import opened ChainIds

  datatype Class = NotFound | AlreadyExists | Other

  /** A snapshot's content is the sequence of layers applied to the empty directory. */
  datatype Snapshot = Snapshot(parent: Digest, content: seq<Digest>)

  /** Names of committed snapshots and keys of active ones are kept apart. */
  type Key = nat

  datatype State = State(committed: map<Digest, Snapshot>, active: map<Key, Snapshot>)

  datatype Outcome = Outcome(state: State, err: Option<Class>)

  function Stat(s: State, name: Digest, fault: Option<Class>): Option<Class> {
    if fault.Some? then fault else if name in s.committed then None else Some(NotFound)
  }

  function Prepare(s: State, key: Key, parent: Digest, fault: Option<Class>): Outcome {
    if fault.Some? then Outcome(s, fault)
    else if key in s.active then Outcome(s, Some(AlreadyExists))
    else if parent == "" then Outcome(s.(active := s.active[key := Snapshot("", [])]), None)
    else if parent in s.committed then
      Outcome(s.(active := s.active[key := Snapshot(parent, s.committed[parent].content)]), None)
    else Outcome(s, Some(NotFound))
  }

  /** Applying a layer to an active snapshot; a failure leaves debris in it. */
  function Apply(s: State, key: Key, layer: Digest, fault: Option<Class>, debris: seq<Digest>): Outcome {
    if key !in s.active then Outcome(s, Some(Other))
    else
      var a := s.active[key];
      var content := if fault.Some? then debris else a.content + [layer];
      Outcome(s.(active := s.active[key := a.(content := content)]), fault)
  }

  function Commit(s: State, name: Digest, key: Key, fault: Option<Class>): Outcome {
    if fault.Some? then Outcome(s, fault)
    else if name in s.committed then Outcome(s, Some(AlreadyExists))
    else if key !in s.active then Outcome(s, Some(NotFound))
    else Outcome(State(s.committed[name := s.active[key]], s.active - {key}), None)
  }

  function Remove(s: State, key: Key, works: bool): State {
    if works then s.(active := s.active - {key}) else s
  }

  predicate HasChild(s: State, name: Digest) {
    || (exists n | n in s.committed :: s.committed[n].parent == name)
    || (exists k | k in s.active :: s.active[k].parent == name)
  }

  /** Someone else removes a committed snapshot; the snapshotter refuses when it has children. */
  function Reap(s: State, name: Digest): State {
    if name in s.committed && !HasChild(s, name) then s.(committed := s.committed - {name}) else s
  }

  // ---- What every state satisfies ----

  /** The snapshot is named after its content, and its parent after what lies below its last layer. */
  ghost predicate NamedRight(h: Hash, layers: iset<Digest>, name: Digest, s: Snapshot) {
    && s.content != [] && Over(layers, s.content)
    && name == ChainID(h, s.content)
    && s.parent == ChainID(h, Front(s.content))
  }

  ghost predicate ParentThere(s: State, parent: Digest) {
    parent == "" || parent in s.committed
  }

  ghost predicate PrefixClosed(h: Hash, layers: iset<Digest>, s: State) {
    && (forall n | n in s.committed ::
          NamedRight(h, layers, n, s.committed[n]) && ParentThere(s, s.committed[n].parent))
    && (forall k | k in s.active :: ParentThere(s, s.active[k].parent))
  }

  /** The snapshot committed under a chain's name is that chain's, and every shorter chain is there too. */
  lemma {:induction false} CommittedChain(h: Hash, layers: iset<Digest>, s: State, chain: seq<Digest>)
    requires CollisionFree(h, layers) && PrefixClosed(h, layers, s)
    requires chain != [] && Over(layers, chain) && ChainID(h, chain) in s.committed
    ensures s.committed[ChainID(h, chain)] == Snapshot(ChainID(h, Front(chain)), chain)
    ensures forall i | 0 < i <= |chain| :: ChainID(h, chain[..i]) in s.committed
    decreases |chain|
  {
    var snap := s.committed[ChainID(h, chain)];
    ChainIDInjective(h, layers, snap.content, chain);
    assert chain[..|chain|] == chain;
    if |chain| > 1 {
      ChainIDEmpty(h, layers, Front(chain));
      CommittedChain(h, layers, s, Front(chain));
      forall i | 0 < i < |chain| ensures ChainID(h, chain[..i]) in s.committed {
        assert Front(chain)[..i] == chain[..i];
      }
    }
  }

  /** What an unpacker's own active snapshot is while it works on `chain`. */
  ghost predicate Holds(h: Hash, s: State, key: Key, chain: seq<Digest>, applied: bool)
    requires chain != []
  {
    && key in s.active
    && s.active[key] == Snapshot(ChainID(h, Front(chain)), if applied then chain else Front(chain))
  }

  lemma PrepareKeeps(h: Hash, layers: iset<Digest>, s: State, key: Key, chain: seq<Digest>, fault: Option<Class>)
    requires CollisionFree(h, layers) && PrefixClosed(h, layers, s)
    requires chain != [] && Over(layers, chain)
    ensures
      var r := Prepare(s, key, ChainID(h, Front(chain)), fault);
      && PrefixClosed(h, layers, r.state)
      && (r.err.None? ==> key !in s.active && Holds(h, r.state, key, chain, false))
      && (r.err.Some? ==> r.state == s)
  {
    var below := Front(chain);
    ChainIDEmpty(h, layers, below);
    if below != [] && ChainID(h, below) in s.committed {
      CommittedChain(h, layers, s, below);
    }
  }

  lemma ApplyKeeps(
    h: Hash, layers: iset<Digest>, s: State, key: Key, chain: seq<Digest>, fault: Option<Class>, debris: seq<Digest>)
    requires PrefixClosed(h, layers, s) && chain != [] && Holds(h, s, key, chain, false)
    ensures
      var r := Apply(s, key, Last(chain), fault, debris);
      && PrefixClosed(h, layers, r.state)
      && r.err == fault
      && (r.err.None? ==> Holds(h, r.state, key, chain, true))
  {
    assert Front(chain) + [Last(chain)] == chain;
  }

  lemma CommitKeeps(h: Hash, layers: iset<Digest>, s: State, key: Key, chain: seq<Digest>, fault: Option<Class>)
    requires CollisionFree(h, layers) && PrefixClosed(h, layers, s)
    requires chain != [] && Over(layers, chain) && Holds(h, s, key, chain, true)
    ensures
      var r := Commit(s, ChainID(h, chain), key, fault);
      && PrefixClosed(h, layers, r.state)
      && (r.err.None? ==>
            && ChainID(h, chain) !in s.committed
            && r.state == State(s.committed[ChainID(h, chain) := Snapshot(ChainID(h, Front(chain)), chain)],
                                s.active - {key}))
      && (r.err.Some? ==> r.state == s)
      && (r.err == Some(AlreadyExists) && fault.None? ==> ChainID(h, chain) in s.committed)
  {
  }

  lemma ReapKeeps(h: Hash, layers: iset<Digest>, s: State, name: Digest)
    requires PrefixClosed(h, layers, s)
    ensures PrefixClosed(h, layers, Reap(s, name)) && Reap(s, name).active == s.active
  {
  }
}
